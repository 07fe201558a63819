/**
 The closed-loop pacer: one capacity-1 token bucket whose rate follows the stage the run is in, and
 what it lets the workers offer. Takers are serialised by the pacer's lock.
 */
module ClosedLoop {
  import opened Wrappers
  import opened Reals
  import opened Clocks
  import opened RateLimit
  import opened TokenBuckets
  import opened Plans

  const EPSILON := 0.000000001

  datatype Bound = Bound(end: real, rate: real)

  function BoundsOf(stages: seq<Stage>, at: real): (bounds: seq<Bound>)
    ensures |bounds| == |stages|
  {
    if stages == [] then []
    else
      var end := at + stages[0].duration;
      [Bound(end, stages[0].rate)] + BoundsOf(stages[1..], end)
  }

  /** How many stages are over at t. */
  function StageIndex(bounds: seq<Bound>, t: real): (i: nat)
    ensures i <= |bounds|
    ensures forall j :: 0 <= j < i ==> t >= bounds[j].end
    ensures i < |bounds| ==> t < bounds[i].end
  {
    if bounds == [] || t < bounds[0].end then 0 else 1 + StageIndex(bounds[1..], t)
  }

  /** The stage a moment falls in; the last stage for any moment after the plan. */
  function StageAt(bounds: seq<Bound>, t: real): Bound
    requires bounds != []
  {
    var i := StageIndex(bounds, t);
    if i < |bounds| then bounds[i] else bounds[|bounds| - 1]
  }

  datatype Decision = GiveUp | MoveTo(boundary: real) | TakeToken

  /** What a taker does at reading `now`, when its token is `wait` away. */
  function Decide(bounds: seq<Bound>, runEnd: real, now: real, wait: real): Decision
    requires bounds != []
  {
    var boundary := Min(StageAt(bounds, now + EPSILON).end, runEnd);
    if now + wait < boundary - EPSILON then TakeToken
    else if boundary >= runEnd - EPSILON then GiveUp
    else MoveTo(boundary)
  }

  // Bounds and stages

  lemma {:induction false} StageAtIsRateAt(stages: seq<Stage>, at: real, t: real)
    requires stages != [] && WellFormed(stages)
    ensures StageAt(BoundsOf(stages, at), t) == Bound(StageEnd(stages, at, t), RateAt(stages, at, t))
    decreases |stages|
  {
    var bounds := BoundsOf(stages, at);
    if t >= bounds[0].end && |stages| > 1 {
      StageAtIsRateAt(stages[1..], bounds[0].end, t);
    }
  }

  lemma {:induction false} LastBoundIsPlanEnd(stages: seq<Stage>, at: real)
    requires stages != [] && WellFormed(stages)
    ensures BoundsOf(stages, at)[|stages| - 1].end == at + Total(stages)
    ensures forall i :: 0 <= i < |stages| - 1 ==> BoundsOf(stages, at)[i].end < at + Total(stages)
    ensures at < BoundsOf(stages, at)[0].end
    decreases |stages|
  {
    if |stages| > 1 {
      LastBoundIsPlanEnd(stages[1..], at + stages[0].duration);
    } else {
      assert Total(stages[1..]) == 0.0;
    }
  }

  /** No reading makes a taker sleep until a moment that is not in the future. */
  ghost predicate NeverStuck(bounds: seq<Bound>, startedAt: real, runEnd: real)
    requires bounds != []
  {
    forall now, wait :: startedAt <= now < runEnd - EPSILON && wait >= 0.0 && Decide(bounds, runEnd, now, wait).MoveTo?
      ==> Decide(bounds, runEnd, now, wait).boundary > now
  }

  /** The pacer makes progress exactly when the stages reach the end of the run, to within epsilon.
      Otherwise a taker between the two asks for a sleep of zero or negative length. */
  lemma NeverStuckIffStagesReachTheEnd(stages: seq<Stage>, startedAt: real, runEnd: real)
    requires stages != [] && WellFormed(stages)
    ensures NeverStuck(BoundsOf(stages, startedAt), startedAt, runEnd)
      <==> startedAt + Total(stages) >= runEnd - EPSILON
  {
    LastBoundIsPlanEnd(stages, startedAt);
    if startedAt + Total(stages) < runEnd - EPSILON {
      StuckPastThePlan(stages, startedAt, runEnd);
    }
  }

  lemma StuckPastThePlan(stages: seq<Stage>, startedAt: real, runEnd: real)
    requires stages != [] && WellFormed(stages) && startedAt + Total(stages) < runEnd - EPSILON
    ensures var planEnd := startedAt + Total(stages);
      planEnd >= startedAt && Decide(BoundsOf(stages, startedAt), runEnd, planEnd, 0.0) == MoveTo(planEnd)
  {
    hide BoundsOf, Total, WellFormed;
    var bounds := BoundsOf(stages, startedAt);
    var planEnd := startedAt + Total(stages);
    LastBoundIsPlanEnd(stages, startedAt);
    assert |stages| > 1 ==> bounds[0].end < planEnd;
    assert StageIndex(bounds, planEnd + EPSILON) == |bounds|;
  }

  /** For the plans a run accepts: a warmup longer than epsilon with no ramp steps gets stuck, and
      nothing else does. */
  lemma RunsThatGetStuck(target: real, warmup: real, hold: real, steps: int, startedAt: real)
    requires target > 0.0 && warmup >= 0.0 && hold > 0.0 && steps >= 0
    ensures BuildStages(target, warmup, hold, steps) != []
    ensures NeverStuck(BoundsOf(BuildStages(target, warmup, hold, steps), startedAt), startedAt,
        startedAt + warmup + hold)
      <==> steps > 0 || warmup <= EPSILON
  {
    StagesOfARun(target, warmup, hold, steps);
    NeverStuckIffStagesReachTheEnd(BuildStages(target, warmup, hold, steps), startedAt, startedAt + warmup + hold);
  }

  // Credit against the plan

  ghost predicate PlanOf(stages: seq<Stage>, top: real) {
    && stages != [] && WellFormed(stages) && NonDecreasing(stages)
    && (forall i :: 0 <= i < |stages| ==> stages[i].rate <= top)
  }

  /** What the plan allows by a moment, for so many slots: one to start with, the planned integral
      an epsilon ahead, and a sliver for each slot. */
  ghost function Allowance(stages: seq<Stage>, startedAt: real, top: real, t: real, slots: nat): real {
    1.0 + Integral(stages, startedAt, startedAt, t + EPSILON) + Times(slots, MIN_WAIT * top)
  }

  /** While the plan lasts the bucket is no faster than the plan, and holds no more than the plan
      allows beyond what it has handed out. */
  ghost predicate WithinPlan(stages: seq<Stage>, startedAt: real, top: real, b: Bucket, slots: nat)
    requires stages != []
  {
    && Sound(b) && b.capacity == 1.0 && startedAt <= b.last && b.rate <= top
    && (b.last + EPSILON < startedAt + Total(stages) ==>
          && b.rate <= RateAt(stages, startedAt, b.last + EPSILON)
          && b.tokens + slots as real <= Allowance(stages, startedAt, top, b.last, slots))
  }

  lemma FreshBucketIsWithinPlan(stages: seq<Stage>, startedAt: real, top: real, now: real)
    requires PlanOf(stages, top) && now >= startedAt
    ensures WithinPlan(stages, startedAt, top, Bucket(stages[0].rate, 1.0, 1.0, now), 0)
  {
    RateAtGrows(stages, startedAt, now + EPSILON, now + EPSILON);
    IntegralIsNonNegative(stages, startedAt, startedAt, now + EPSILON);
  }

  /** A step of the bucket stays within the plan: what it earns, the plan asks for. */
  lemma StepStaysWithinPlan(stages: seq<Stage>, startedAt: real, top: real, b: Bucket, step: Step, slots: nat)
    requires PlanOf(stages, top) && WithinPlan(stages, startedAt, top, b, slots) && Accepted(b, step)
    requires !step.SetRate? ==> step.wanted == 1.0
    requires step.SetRate? ==> step.rate <= top && step.rate <= RateAt(stages, startedAt, Max(b.last, step.now) + EPSILON)
    ensures WithinPlan(stages, startedAt, top, After(b, step), if Grants(b, step) then slots + 1 else slots)
  {
    var a := After(b, step);
    var planEnd := startedAt + Total(stages);
    StepIsSound(b, step);
    StepConserves(b, step);
    LastFollows(b, step);
    if a.last + EPSILON < planEnd {
      RateAtGrows(stages, startedAt, b.last + EPSILON, a.last + EPSILON);
      EarnedIsPlanned(stages, startedAt, b, step);
      IntegralSplits(stages, startedAt, startedAt, b.last + EPSILON, a.last + EPSILON);
      MoreRate(b.rate, top, MIN_WAIT);
    }
  }

  lemma LastFollows(b: Bucket, step: Step)
    requires Sound(b) && Accepted(b, step)
    ensures After(b, step).last == Max(b.last, step.now)
    ensures After(b, step).rate == (if step.SetRate? then step.rate else b.rate)
  {
  }

  lemma EarnedIsPlanned(stages: seq<Stage>, startedAt: real, b: Bucket, step: Step)
    requires stages != [] && WellFormed(stages) && NonDecreasing(stages)
    requires Sound(b) && Accepted(b, step) && startedAt <= b.last
    requires b.rate <= RateAt(stages, startedAt, b.last + EPSILON)
    requires After(b, step).last + EPSILON < startedAt + Total(stages)
    ensures Earned(b, step) <= Integral(stages, startedAt, b.last + EPSILON, After(b, step).last + EPSILON)
  {
    hide Integral, RateAt, Total;
    LastFollows(b, step);
    IntegralAtLeast(stages, startedAt, b.rate, b.last + EPSILON, After(b, step).last + EPSILON);
    assert (After(b, step).last + EPSILON) - (b.last + EPSILON) == After(b, step).last - b.last;
  }

  lemma PassesStayWithinPlan(stages: seq<Stage>, startedAt: real, top: real, b: Bucket, passes: seq<Step>, slots: nat)
    requires PlanOf(stages, top) && WithinPlan(stages, startedAt, top, b, slots)
    requires PassesUntilGranted(b, 1.0, passes)
    ensures WithinPlan(stages, startedAt, top, Run(b, passes), slots + 1)
  {
    assert passes[..0] == [];
    if |passes| == 1 {
      assert passes == [passes[0]] && passes[..1][..0] == [];
      StepStaysWithinPlan(stages, startedAt, top, b, passes[0], slots);
    } else {
      var first := After(b, passes[0]);
      assert passes[..1] == [passes[0]] && passes[..1][..0] == [];
      assert Run(b, passes[..1]) == first;
      assert passes[..|passes| - 1] == passes[..1];
      StepStaysWithinPlan(stages, startedAt, top, b, passes[0], slots);
      StepStaysWithinPlan(stages, startedAt, top, first, passes[1], slots);
    }
  }

  // The pacer

  /** The slots handed out so far were taken within the run, in order. */
  ghost predicate TakenInOrder(startedAt: real, runEnd: real, taken: seq<real>) {
    && (forall i, j :: 0 <= i <= j < |taken| ==> taken[i] <= taken[j])
    && (forall i :: 0 <= i < |taken| ==> startedAt <= taken[i] < runEnd - EPSILON)
  }

  /** And each of them within the plan. */
  ghost predicate TakenWithinPlan(stages: seq<Stage>, startedAt: real, top: real, taken: seq<real>)
    requires stages != []
  {
    && TakenInOrder(startedAt, startedAt + Total(stages), taken)
    && (forall i :: 0 <= i < |taken| ==> (i + 1) as real <= Allowance(stages, startedAt, top, taken[i], i + 1))
  }

  /** At any moment the slots handed out number at most one, plus the planned integral so far, plus
      an epsilon of the top rate and a sliver for each slot. */
  lemma OfferedLoadIsWithinPlan(stages: seq<Stage>, startedAt: real, top: real, taken: seq<real>, t: real, slots: nat)
    requires PlanOf(stages, top) && top >= 0.0 && TakenWithinPlan(stages, startedAt, top, taken)
    requires slots <= |taken| && (slots > 0 ==> taken[slots - 1] <= t) && t >= startedAt
    ensures slots as real
      <= 1.0 + Integral(stages, startedAt, startedAt, t) + top * EPSILON + Times(slots, MIN_WAIT * top)
  {
    IntegralIsNonNegative(stages, startedAt, startedAt, t);
    ProductIsNonNegative(top, EPSILON);
    if slots > 0 {
      IntegralGrows(stages, startedAt, taken[slots - 1] + EPSILON, t + EPSILON);
      IntegralAhead(stages, startedAt, top, t);
    }
  }

  lemma IntegralGrows(stages: seq<Stage>, startedAt: real, t: real, later: real)
    requires WellFormed(stages) && startedAt <= t <= later
    ensures Integral(stages, startedAt, startedAt, t) <= Integral(stages, startedAt, startedAt, later)
  {
    IntegralSplits(stages, startedAt, startedAt, t, later);
    IntegralIsNonNegative(stages, startedAt, t, later);
  }

  /** Looking an epsilon ahead adds at most an epsilon of the top rate. */
  lemma IntegralAhead(stages: seq<Stage>, startedAt: real, top: real, t: real)
    requires PlanOf(stages, top) && top >= 0.0 && startedAt <= t
    ensures Integral(stages, startedAt, startedAt, t + EPSILON) <= Integral(stages, startedAt, startedAt, t) + top * EPSILON
  {
    IntegralSplits(stages, startedAt, startedAt, t, t + EPSILON);
    IntegralAtMost(stages, startedAt, top, t, t + EPSILON);
    assert (t + EPSILON) - t == EPSILON;
  }

  // Keeping up with the plan

  /** Refilled to this moment, the bucket and the slots handed out come to at least one slot and what the
      plan has asked for, but for an epsilon of the top rate for each move to another stage. */
  ghost predicate KeepsUp(stages: seq<Stage>, startedAt: real, top: real, b: Bucket, slots: nat, moves: nat, now: real) {
    && Sound(b) && b.capacity == 1.0
    && Refill(b, now).tokens + slots as real
         >= 1.0 + Integral(stages, startedAt, startedAt, now) - Times(moves, top * EPSILON)
  }

  lemma FreshBucketKeepsUp(stages: seq<Stage>, startedAt: real, top: real)
    requires PlanOf(stages, top)
    ensures KeepsUp(stages, startedAt, top, Bucket(stages[0].rate, 1.0, 1.0, startedAt), 0, 0, startedAt)
  {
    IntegralSplits(stages, startedAt, startedAt, startedAt, startedAt);
  }

  /** What a bucket at the stage's rate earns up to the stage's end, the plan asks for at most. */
  lemma EarnsThePlan(stages: seq<Stage>, startedAt: real, b: Bucket, now: real, later: real)
    requires stages != [] && WellFormed(stages) && NonDecreasing(stages)
    requires b.rate == RateAt(stages, startedAt, now + EPSILON) && startedAt <= now <= later
    requires later <= StageEnd(stages, startedAt, now + EPSILON)
    ensures Integral(stages, startedAt, startedAt, later)
      <= Integral(stages, startedAt, startedAt, now) + Area(b.rate, now, later)
  {
    hide Integral, RateAt, StageEnd;
    IntegralInside(stages, startedAt, now, later, now + EPSILON);
    IntegralSplits(stages, startedAt, startedAt, now, later);
  }

  /** A move to the stage's end loses at most an epsilon's worth: the next token was no nearer. */
  lemma MoveKeepsUp(stages: seq<Stage>, startedAt: real, top: real, b: Bucket, slots: nat, moves: nat, now: real,
      wait: real, boundary: real)
    requires PlanOf(stages, top) && KeepsUp(stages, startedAt, top, b, slots, moves, now)
    requires b.last == now && b.rate == RateAt(stages, startedAt, now + EPSILON) && startedAt <= now <= boundary
    requires boundary <= StageEnd(stages, startedAt, now + EPSILON)
    requires wait == (if b.tokens >= 1.0 then 0.0 else (1.0 - b.tokens) / b.rate) && now + wait >= boundary - EPSILON
    ensures KeepsUp(stages, startedAt, top, b, slots, moves + 1, boundary)
  {
    hide Integral, RateAt, StageEnd;
    EarnsThePlan(stages, startedAt, b, now, boundary);
    RateAtGrows(stages, startedAt, now + EPSILON, now + EPSILON);
    RateIsAtMostTop(stages, startedAt, top, now + EPSILON);
    OvershootIsSmall(b.tokens, b.rate, wait, boundary - now, top);
  }

  lemma RateIsAtMostTop(stages: seq<Stage>, startedAt: real, top: real, t: real)
    requires PlanOf(stages, top)
    ensures 0.0 < RateAt(stages, startedAt, t) <= top
  {
    RateAtGrows(stages, startedAt, t, t);
  }

  lemma OvershootIsSmall(tokens: real, rate: real, wait: real, span: real, top: real)
    requires 0.0 < rate <= top && tokens <= 1.0 && wait >= span - EPSILON
    requires wait == if tokens >= 1.0 then 0.0 else (1.0 - tokens) / rate
    ensures tokens + span * rate <= 1.0 + top * EPSILON
  {
    assert wait * rate == 1.0 - tokens;
    ProductIsNonNegative(wait + EPSILON - span, rate);
    ProductIsNonNegative(top - rate, EPSILON);
  }

  /** A token taken after exactly its wait. */
  lemma TakeKeepsUp(stages: seq<Stage>, startedAt: real, top: real, b: Bucket, passes: seq<Step>, slots: nat,
      moves: nat, now: real, later: real)
    requires PlanOf(stages, top) && KeepsUp(stages, startedAt, top, b, slots, moves, now)
    requires b.last == now && b.rate == RateAt(stages, startedAt, now + EPSILON) && startedAt <= now <= later
    requires later <= StageEnd(stages, startedAt, now + EPSILON)
    requires PassesUntilGranted(b, 1.0, passes) && passes[0].now == now && passes[|passes| - 1].now == later
    requires later == now || (b.tokens < 1.0 && later - now == (1.0 - b.tokens) / b.rate)
    ensures KeepsUp(stages, startedAt, top, Run(b, passes), slots + 1, moves, later)
  {
    hide Integral, RateAt, StageEnd;
    EarnsThePlan(stages, startedAt, b, now, later);
    GrantLeaves(b, passes, now, later);
  }

  lemma GrantLeaves(b: Bucket, passes: seq<Step>, now: real, later: real)
    requires Sound(b) && b.capacity == 1.0 && b.last == now <= later
    requires PassesUntilGranted(b, 1.0, passes) && passes[0].now == now && passes[|passes| - 1].now == later
    requires later == now || (b.tokens < 1.0 && later - now == (1.0 - b.tokens) / b.rate)
    ensures Run(b, passes).tokens >= b.tokens + Area(b.rate, now, later) - 1.0
    ensures Run(b, passes).last == later && Run(b, passes).capacity == 1.0
  {
    assert passes[..0] == [];
    AreaOfNothing(b.rate, now);
    if |passes| == 1 {
      assert passes == [passes[0]] && passes[..1][..0] == [];
    } else {
      assert passes[..1] == [passes[0]] && passes[..1][..0] == [] && passes[..|passes| - 1] == passes[..1];
      assert Run(b, passes[..1]) == After(b, passes[0]) == b;
      if later > now {
        assert Area(b.rate, now, later) == 1.0 - b.tokens;
      }
    }
  }

  /** When the next token of a bucket is there. */
  function NextToken(b: Bucket): real
    requires b.rate > 0.0
  {
    b.last + if b.tokens >= 1.0 then 0.0 else (1.0 - b.tokens) / b.rate
  }

  /** The plan is over at `now`, or its last stage is in force and the next token is not there before its end. */
  ghost predicate NothingMoreToTake(stages: seq<Stage>, startedAt: real, b: Bucket, now: real)
    requires stages != []
  {
    var end := startedAt + Total(stages);
    now >= end - EPSILON || (
      && b.last == now && b.rate > 0.0 && b.rate == RateAt(stages, startedAt, now + EPSILON)
      && StageEnd(stages, startedAt, now + EPSILON) >= end - EPSILON
      && NextToken(b) >= end - EPSILON - EPSILON)
  }

  /** A run that keeps up and ends for want of time has offered the plan: too little of it is left for
      another slot. */
  lemma NothingLeftToOffer(stages: seq<Stage>, startedAt: real, top: real, b: Bucket, slots: nat, moves: nat, now: real)
    requires PlanOf(stages, top) && KeepsUp(stages, startedAt, top, b, slots, moves, now) && startedAt <= now
    requires NothingMoreToTake(stages, startedAt, b, now)
    ensures slots as real
      >= Integral(stages, startedAt, startedAt, startedAt + Total(stages)) - Times(moves + 3, top * EPSILON)
  {
    hide Integral, RateAt, StageEnd, Total, Times;
    var end := startedAt + Total(stages);
    RefillIsSound(b, now);
    RateIsAtMostTop(stages, startedAt, top, now + EPSILON);
    ProductIsNonNegative(top, EPSILON);
    ThreeMore(moves, top * EPSILON);
    if now >= end - EPSILON {
      TailIsSmall(stages, startedAt, top, now, end);
    } else {
      LastStageLeavesLittle(stages, startedAt, top, b, now);
    }
  }

  lemma LastStageLeavesLittle(stages: seq<Stage>, startedAt: real, top: real, b: Bucket, now: real)
    requires PlanOf(stages, top) && Sound(b) && b.capacity == 1.0 && startedAt <= now
    requires NothingMoreToTake(stages, startedAt, b, now) && now < startedAt + Total(stages) - EPSILON
    ensures Integral(stages, startedAt, startedAt, startedAt + Total(stages)) + b.tokens
      <= Integral(stages, startedAt, startedAt, now) + 1.0 + top * EPSILON + top * EPSILON + top * EPSILON
  {
    hide Integral, RateAt, StageEnd, Total;
    var end := startedAt + Total(stages);
    var stop := Min(StageEnd(stages, startedAt, now + EPSILON), end);
    RateIsAtMostTop(stages, startedAt, top, now + EPSILON);
    EarnsThePlan(stages, startedAt, b, now, stop);
    TailIsSmall(stages, startedAt, top, stop, end);
    NotEnoughForAToken(b.tokens, b.rate, stop - now, top);
  }

  lemma ThreeMore(n: nat, x: real)
    ensures Times(n + 3, x) == Times(n, x) + x + x + x
  {
    assert Times(n + 3, x) == Times(n + 2, x) + x == Times(n + 1, x) + x + x;
  }

  lemma NotEnoughForAToken(tokens: real, rate: real, span: real, top: real)
    requires 0.0 < rate <= top && tokens <= 1.0
    requires span <= (if tokens >= 1.0 then 0.0 else (1.0 - tokens) / rate) + EPSILON + EPSILON
    ensures tokens + span * rate <= 1.0 + top * EPSILON + top * EPSILON
  {
    var wait := if tokens >= 1.0 then 0.0 else (1.0 - tokens) / rate;
    assert wait * rate == 1.0 - tokens;
    ProductIsNonNegative(wait + EPSILON + EPSILON - span, rate);
    ProductIsNonNegative(top - rate, EPSILON);
  }

  lemma TailIsSmall(stages: seq<Stage>, startedAt: real, top: real, t: real, end: real)
    requires PlanOf(stages, top) && startedAt <= t && end - EPSILON <= t && end == startedAt + Total(stages)
    ensures Integral(stages, startedAt, startedAt, end) <= Integral(stages, startedAt, startedAt, t) + top * EPSILON
  {
    hide Integral, Total;
    RateIsAtMostTop(stages, startedAt, top, t);
    ProductIsNonNegative(top, EPSILON);
    if t < end {
      IntegralSplits(stages, startedAt, startedAt, t, end);
      IntegralAtMost(stages, startedAt, top, t, end);
      ProductIsNonNegative(top, EPSILON - (end - t));
      Adds(top, end - t, EPSILON - (end - t), EPSILON);
    } else {
      EndIsAfterStart(stages);
      IntegralGrows(stages, startedAt, end, t);
    }
  }

  lemma {:induction false} EndIsAfterStart(stages: seq<Stage>)
    requires WellFormed(stages)
    ensures Total(stages) >= 0.0
  {
    if stages != [] {
      EndIsAfterStart(stages[1..]);
    }
  }

  datatype Slot = Slot(index: nat, rate: real, takenAt: real, waited: real)

  datatype Taken = Took(slot: Slot) | Over | Stuck

  class Pacer {
    const stages: seq<Stage>
    const startedAt: real
    const runEnd: real
    const top: real
    const bounds: seq<Bound>
    const clock: WallClock
    const bucket: TokenBucket
    var finished: bool
    var nextIndex: nat
    ghost var taken: seq<real>

    ghost predicate Valid()
      reads this, bucket, clock
    {
      && PlanOf(stages, top) && runEnd >= startedAt + Total(stages)
      && bounds == BoundsOf(stages, startedAt)
      && bucket.clock == clock && bucket.capacity == 1.0 && bucket.Valid()
      && |taken| == nextIndex && TakenInOrder(startedAt, runEnd, taken)
      && (FillsTheRun() ==> TakenWithinPlan(stages, startedAt, top, taken))
      && (taken != [] ==> taken[|taken| - 1] <= clock.now)
      && (!finished ==> WithinPlan(stages, startedAt, top, bucket.State(), nextIndex))
    }

    /** The stages last as long as the run, as they do unless a warmup has no ramp steps. */
    ghost predicate FillsTheRun() {
      runEnd == startedAt + Total(stages)
    }

    constructor (stages: seq<Stage>, top: real, startedAt: real, runEnd: real, clock: WallClock)
      requires PlanOf(stages, top) && startedAt <= clock.now && runEnd >= startedAt + Total(stages)
      modifies clock
      ensures Valid() && this.stages == stages && this.startedAt == startedAt && this.runEnd == runEnd
      ensures this.top == top && this.clock == clock && nextIndex == 0 && !finished && fresh(bucket)
      ensures bucket.State() == Bucket(stages[0].rate, 1.0, 1.0, clock.now)
      ensures clock.now >= old(clock.now) && (clock.additive ==> clock.now == old(clock.now))
    {
      this.stages, this.top, this.startedAt, this.runEnd, this.clock := stages, top, startedAt, runEnd, clock;
      bounds := BoundsOf(stages, startedAt);
      bucket := new TokenBucket(stages[0].rate, 1.0, clock);
      finished, nextIndex, taken := false, 0, [];
      new;
      FreshBucketIsWithinPlan(stages, startedAt, top, bucket.last);
    }

    method Stop()
      requires Valid()
      modifies `finished
      ensures Valid() && finished
    {
      finished := true;
    }

    /** Prices the bucket at the stage of reading `now` and says how far away the next token is. */
    method Price(now: real) returns (wait: real)
      requires Valid() && !finished && startedAt <= now <= clock.now
      modifies bucket, clock
      ensures Valid() && clock.now >= old(clock.now) && wait >= 0.0
      ensures bucket.rate == RateAt(stages, startedAt, now + EPSILON) && bucket.last == clock.now
      ensures NextToken(bucket.State()) == clock.now + wait
      ensures clock.additive ==>
        clock.now == old(clock.now) && bucket.tokens == old(Refill(bucket.State(), clock.now).tokens)
    {
      hide WithinPlan, TakenWithinPlan, Integral, RateAt, StageAt, StageEnd, Total, RateAt;
      var stage := StageAt(bounds, now + EPSILON);
      StageAtIsRateAt(stages, startedAt, now + EPSILON);
      RateAtGrows(stages, startedAt, now + EPSILON, now + EPSILON);
      ghost var b := bucket.State();
      if bucket.rate != stage.rate {
        var changed := bucket.ChangeRate(stage.rate);
        assert changed.Ok?;
        RateAtGrows(stages, startedAt, now + EPSILON, Max(b.last, clock.now) + EPSILON);
        StepStaysWithinPlan(stages, startedAt, top, b, SetRate(clock.now, stage.rate), nextIndex);
      }
      b := bucket.State();
      var r := bucket.TimeUntil(1.0);
      StepStaysWithinPlan(stages, startedAt, top, b, WaitTime(clock.now, 1.0), nextIndex);
      wait := r.value;
    }

    /** Takes the token that is less than a stage away, unless the run ends first. */
    method TakeNow(rate: real) returns (r: Taken, ghost passes: seq<Step>)
      requires Valid() && !finished && startedAt <= clock.now
      modifies this, bucket, clock
      ensures Valid() && clock.now >= old(clock.now) && !r.Stuck?
      ensures PassesUntilGranted(old(bucket.State()), 1.0, passes) && bucket.State() == Run(old(bucket.State()), passes)
      ensures clock.additive ==> passes[0].now == old(clock.now) && passes[|passes| - 1].now == clock.now
      ensures clock.additive ==> clock.now == old(clock.now) + old(bucket.WaitNeeded(1.0))
      ensures r.Took? ==>
        && r.slot.index == old(nextIndex) && nextIndex == old(nextIndex) + 1
        && taken == old(taken) + [r.slot.takenAt] && r.slot.rate == rate
        && old(clock.now) <= r.slot.takenAt <= clock.now && !finished
      ensures r.Over? ==> finished && nextIndex == old(nextIndex) && taken == old(taken) && clock.now >= runEnd - EPSILON
    {
      hide Integral, After, Run, Refill;
      ghost var b := bucket.State();
      var acquired;
      acquired, passes := bucket.Acquire(1.0);
      var takenAt := clock.Read();
      PassesStayWithinPlan(stages, startedAt, top, b, passes, nextIndex);
      if takenAt >= runEnd - EPSILON {
        finished := true;
        return Over, passes;
      }
      if FillsTheRun() {
        SlotIsWithinPlan(stages, startedAt, top, bucket.State(), nextIndex + 1, takenAt);
      }
      r := Took(Slot(nextIndex, rate, takenAt, acquired.value));
      nextIndex := nextIndex + 1;
      taken := taken + [takenAt];
    }

    /** The rate and the end of the stage that a reading falls in. */
    ghost function StageRate(reading: real): real
      requires stages != []
    {
      RateAt(stages, startedAt, reading + EPSILON)
    }

    ghost function StageStop(reading: real): real
      requires stages != []
    {
      StageEnd(stages, startedAt, reading + EPSILON)
    }

    /** The rate of the stage that some reading from `t0` to `t1` fell in. */
    ghost predicate InForce(rate: real, t0: real, t1: real) {
      stages != [] && exists reading :: t0 <= reading <= t1 && rate == StageRate(reading)
    }

    /** The next token, at the rate of a last stage that some reading since `t0` fell in, is not there before
        the run's end. */
    ghost predicate TooLate(t0: real)
      reads this, bucket, clock
    {
      && stages != [] && bucket.rate > 0.0 && bucket.last == clock.now
      && NextToken(bucket.State()) >= runEnd - EPSILON - EPSILON
      && exists reading :: t0 <= reading <= clock.now && bucket.rate == StageRate(reading)
           && StageStop(reading) >= runEnd - EPSILON
    }

    /** Why nothing more is handed out: somebody stopped it, the run has ended, or the next token would come
        too late. */
    ghost predicate IsOver(stopAt: Option<real>, t0: real)
      reads this, bucket, clock
    {
      || (stopAt.Some? && stopAt.value <= clock.now)
      || clock.now >= runEnd - EPSILON
      || TooLate(t0)
    }

    /** A lone taker on an additive clock that has asked again at once ever since the start. */
    ghost predicate Alone(moves: nat)
      reads this, bucket, clock
    {
      && clock.additive && startedAt <= clock.now && !finished
      && KeepsUp(stages, startedAt, top, bucket.State(), nextIndex, moves, clock.now)
      && moves + Ahead(clock.now) <= 2 * |stages| + 1
    }

    lemma StartsAlone()
      requires Valid() && clock.additive && clock.now == startedAt && nextIndex == 0 && !finished
      requires bucket.State() == Bucket(stages[0].rate, 1.0, 1.0, startedAt)
      ensures Alone(0)
    {
      FreshBucketKeepsUp(stages, startedAt, top);
    }

    /** Sleeps until the end of the stage that reading `now` falls in, if that is still to come. */
    method MoveOn(now: real, wait: real, boundary: real, ghost moves: nat) returns (stuck: bool)
      requires Valid() && !finished && startedAt <= now <= clock.now && bucket.rate == StageRate(now)
      requires bucket.last == clock.now && NextToken(bucket.State()) == clock.now + wait
      requires Decide(bounds, runEnd, now, wait) == MoveTo(boundary)
      modifies clock
      ensures Valid() && clock.now >= old(clock.now)
      ensures stuck ==> startedAt + Total(stages) < runEnd - EPSILON
      ensures !stuck ==> forall before :: before <= now ==> Ahead(clock.now) < Ahead(before)
      ensures !stuck && old(Alone(moves)) && now == old(clock.now) ==> Alone(moves + 1)
    {
      hide WithinPlan, TakenWithinPlan, Integral, StageIndex, Total, RateAt, StageEnd, KeepsUp;
      MoveIsToStageEnd(stages, startedAt, runEnd, now, wait);
      MoveIsWithinStage(stages, startedAt, runEnd, now, wait);
      if boundary - now <= 0.0 {
        return true;
      }
      ghost var alone := Alone(moves) && now == clock.now;
      clock.Sleep(boundary - now);
      forall before | before <= now
        ensures Ahead(clock.now) < Ahead(before)
      {
        MoveMakesProgress(stages, startedAt, before, now, boundary, clock.now);
      }
      if alone {
        MoveKeepsUp(stages, startedAt, top, bucket.State(), nextIndex, moves, now, wait, boundary);
      }
      return false;
    }

    /** Takes the token, which is less than the rest of the stage away. */
    method TakeInStage(now: real, wait: real, ghost moves: nat) returns (r: Taken)
      requires Valid() && !finished && startedAt <= now <= clock.now && bucket.rate == StageRate(now)
      requires bucket.last == clock.now && NextToken(bucket.State()) == clock.now + wait
      requires Decide(bounds, runEnd, now, wait).TakeToken?
      modifies this, bucket, clock
      ensures Valid() && clock.now >= old(clock.now) && !r.Stuck?
      ensures r.Took? ==>
        && r.slot.index == old(nextIndex) && nextIndex == old(nextIndex) + 1
        && taken == old(taken) + [r.slot.takenAt] && r.slot.rate == StageRate(now) && r.slot.takenAt >= now && !finished
      ensures r.Over? ==> finished && nextIndex == old(nextIndex) && taken == old(taken) && clock.now >= runEnd - EPSILON
      ensures old(Alone(moves)) && now == old(clock.now) ==> r.Took? && Alone(moves)
    {
      hide WithinPlan, TakenWithinPlan, Integral, StageIndex, Total, RateAt, StageEnd, KeepsUp, PassesUntilGranted;
      hide Decide, StageAt, NextToken, Run, After, Refill, Grants, StagesAhead;
      ghost var b := bucket.State();
      ghost var alone := Alone(moves) && now == clock.now;
      ghost var needed := bucket.WaitNeeded(1.0);
      TokenIsWithinStage(stages, startedAt, runEnd, now, wait);
      ghost var passes;
      r, passes := TakeNow(StageAt(bounds, now + EPSILON).rate);
      if alone {
        WaitIsToNextToken(b, now, wait, clock.now);
        assert clock.now < runEnd - EPSILON;
        TakeKeepsUp(stages, startedAt, top, b, passes, old(nextIndex), moves, now, clock.now);
        AheadShrinks(now, clock.now);
      }
    }

    lemma AheadShrinks(t0: real, t1: real)
      requires t0 <= t1
      ensures Ahead(t1) <= Ahead(t0)
    {
      StageIndexGrows(BoundsOf(stages, startedAt), t0 + EPSILON, t0 + EPSILON, t1 + EPSILON);
    }

    /** One look at the clock: a token, the end, or a move to the next stage. The pacer is stopped, or the
        run closed, from outside at `stopAt`. */
    method Look(stopAt: Option<real>, ghost moves: nat) returns (r: Option<Taken>)
      requires Valid() && startedAt <= clock.now
      modifies this, bucket, clock
      ensures Valid() && clock.now >= old(clock.now)
      ensures r == Some(Stuck) ==> startedAt + Total(stages) < runEnd - EPSILON
      ensures r.Some? && r.value.Took? ==>
        && r.value.slot.index == old(nextIndex) && nextIndex == old(nextIndex) + 1
        && taken == old(taken) + [r.value.slot.takenAt]
        && InForce(r.value.slot.rate, old(clock.now), r.value.slot.takenAt)
      ensures r == Some(Over) <==> finished
      ensures r == Some(Over) ==> old(finished) || IsOver(stopAt, if clock.additive then clock.now else old(clock.now))
      ensures r.None? || !r.value.Took? ==> nextIndex == old(nextIndex) && taken == old(taken)
      ensures r.None? ==> Ahead(clock.now) < old(Ahead(clock.now))
      ensures old(Alone(moves)) ==>
        if r.None? then Alone(moves + 1)
        else if r.value.Took? then Alone(moves)
        else r.value.Over? ==> KeepsUp(stages, startedAt, top, bucket.State(), nextIndex, moves, clock.now)
    {
      hide WithinPlan, TakenWithinPlan, Integral, StageIndex, Total, RateAt, StageEnd, StagesAhead, PassesUntilGranted;
      var now := clock.Read();
      if finished || (stopAt.Some? && stopAt.value <= now) || now >= runEnd - EPSILON {
        finished := true;
        return Some(Over);
      }
      var wait := Price(now);
      var decision := Decide(bounds, runEnd, now, wait);
      match decision
      case GiveUp =>
        finished := true;
        StageAtIsRateAt(stages, startedAt, now + EPSILON);
        assert bucket.rate == StageRate(now) && StageStop(now) >= runEnd - EPSILON;
        r := Some(Over);
      case MoveTo(boundary) =>
        var stuck := MoveOn(now, wait, boundary, moves);
        r := if stuck then Some(Stuck) else None;
      case TakeToken =>
        var t := TakeInStage(now, wait, moves);
        r := Some(t);
    }

    /** Boundaries still ahead, and whether the plan's end is. */
    ghost function Ahead(t: real): nat {
      StagesAhead(stages, startedAt, t)
    }

    /** Blocks until the next token is earned; `Over` once it would land at or after the end, and
        `Stuck`, which the sleep of a length that is not positive stands for, only in a run that its
        stages do not fill. */
    method Take(stopAt: Option<real>, ghost moves: nat) returns (r: Taken, ghost moved: nat)
      requires Valid() && startedAt <= clock.now
      modifies this, bucket, clock
      ensures Valid() && clock.now >= old(clock.now)
      ensures r.Took? ==>
        && r.slot.index == old(nextIndex) && nextIndex == old(nextIndex) + 1
        && taken == old(taken) + [r.slot.takenAt] && InForce(r.slot.rate, old(clock.now), r.slot.takenAt)
      ensures !r.Took? ==> nextIndex == old(nextIndex) && taken == old(taken)
      ensures r.Over? <==> finished
      ensures r.Over? ==> old(finished) || IsOver(stopAt, if clock.additive then clock.now else old(clock.now))
      ensures r.Stuck? ==> startedAt + Total(stages) < runEnd - EPSILON
      ensures old(Alone(moves)) && r.Took? ==> Alone(moved)
      ensures old(Alone(moves)) && r.Over? ==>
        moved <= 2 * |stages| + 1 && KeepsUp(stages, startedAt, top, bucket.State(), nextIndex, moved, clock.now)
    {
      hide InForce, KeepsUp, IsOver, StagesAhead, WithinPlan, TakenWithinPlan, TakenInOrder, PlanOf;
      moved := moves;
      ghost var alone := Alone(moves);
      var next := Look(stopAt, moved);
      while next.None?
        invariant Valid() && clock.now >= old(clock.now)
        invariant next.None? || !next.value.Took? ==> nextIndex == old(nextIndex) && taken == old(taken)
        invariant next == Some(Over) <==> finished
        invariant next == Some(Over) ==>
          old(finished) || IsOver(stopAt, if clock.additive then clock.now else old(clock.now))
        invariant next == Some(Stuck) ==> startedAt + Total(stages) < runEnd - EPSILON
        invariant next.Some? && next.value.Took? ==>
          && next.value.slot.index == old(nextIndex) && nextIndex == old(nextIndex) + 1
          && taken == old(taken) + [next.value.slot.takenAt]
          && InForce(next.value.slot.rate, old(clock.now), next.value.slot.takenAt)
        invariant alone && next.None? ==> Alone(moved + 1)
        invariant alone && next.Some? && next.value.Took? ==> Alone(moved)
        invariant alone && next == Some(Over) ==>
          moved <= 2 * |stages| + 1 && KeepsUp(stages, startedAt, top, bucket.State(), nextIndex, moved, clock.now)
        decreases next.None?, Ahead(clock.now)
      {
        ghost var t0 := clock.now;
        moved := moved + 1;
        next := Look(stopAt, moved);
        OverSince(stopAt, old(clock.now), t0);
        if next.Some? && next.value.Took? {
          InForceSince(next.value.slot.rate, old(clock.now), t0, next.value.slot.takenAt);
        }
      }
      r := next.value;
    }

    lemma OverSince(stopAt: Option<real>, earlier: real, t0: real)
      requires earlier <= t0
      ensures IsOver(stopAt, t0) ==> IsOver(stopAt, earlier)
    {
      hide RateAt, StageEnd, NextToken;
    }

    lemma InForceSince(rate: real, earlier: real, t0: real, t1: real)
      requires earlier <= t0 && InForce(rate, t0, t1)
      ensures InForce(rate, earlier, t1)
    {
      hide RateAt;
    }
  }

  /** A worker on its own, whose sends take no time, on an additive clock: it asks until it has `limit` slots
      or there are no more. At any moment it has been offered what the plan asks for so far, and a run
      that ends has offered the plan, but for an epsilon of the top rate for each boundary it crossed. */
  method OfferAlone(pacer: Pacer, limit: nat) returns (slots: seq<Slot>, over: bool)
    requires pacer.Valid() && pacer.FillsTheRun() && pacer.Alone(0) && pacer.nextIndex == 0
    modifies pacer, pacer.bucket, pacer.clock
    ensures pacer.Valid() && pacer.nextIndex == |slots| <= limit && (over <==> |slots| < limit)
    ensures forall i :: 0 <= i < |slots| ==> slots[i].index == i && slots[i].takenAt == pacer.taken[i]
    ensures |slots| as real >= Integral(pacer.stages, pacer.startedAt, pacer.startedAt, pacer.clock.now)
      - Times(2 * |pacer.stages| + 1, pacer.top * EPSILON)
    ensures over ==>
      |slots| as real >= Integral(pacer.stages, pacer.startedAt, pacer.startedAt, pacer.runEnd)
        - Times(2 * |pacer.stages| + 4, pacer.top * EPSILON)
  {
    hide Integral, RateAt, StageEnd, Total, KeepsUp, StagesAhead, WithinPlan, TakenWithinPlan, TakenInOrder, NextToken;
    slots, over := [], false;
    ghost var moves: nat := 0;
    while !over && |slots| < limit
      invariant pacer.Valid() && pacer.nextIndex == |slots| <= limit && (over ==> |slots| < limit)
      invariant forall i :: 0 <= i < |slots| ==> slots[i].index == i && slots[i].takenAt == pacer.taken[i]
      invariant !over ==> pacer.Alone(moves)
      invariant over ==>
        && moves <= 2 * |pacer.stages| + 1 && pacer.startedAt <= pacer.clock.now
        && KeepsUp(pacer.stages, pacer.startedAt, pacer.top, pacer.bucket.State(), |slots|, moves, pacer.clock.now)
        && pacer.IsOver(None, pacer.clock.now)
      decreases !over, limit - |slots|
    {
      var taken;
      taken, moves := pacer.Take(None, moves);
      match taken
      case Took(slot) => slots := slots + [slot];
      case Over => over := true;
      case Stuck => assert false;
    }
    SoFarIsOffered(pacer.stages, pacer.startedAt, pacer.top, pacer.bucket.State(), |slots|, moves, pacer.clock.now);
    FewerMovesAreLess(moves, 2 * |pacer.stages| + 1, pacer.stages, pacer.top);
    if over {
      FewerMovesAreLess(moves + 3, 2 * |pacer.stages| + 4, pacer.stages, pacer.top);
      assert NothingMoreToTake(pacer.stages, pacer.startedAt, pacer.bucket.State(), pacer.clock.now);
      NothingLeftToOffer(pacer.stages, pacer.startedAt, pacer.top, pacer.bucket.State(), |slots|, moves, pacer.clock.now);
    }
  }

  lemma SoFarIsOffered(stages: seq<Stage>, startedAt: real, top: real, b: Bucket, slots: nat, moves: nat, now: real)
    requires KeepsUp(stages, startedAt, top, b, slots, moves, now)
    ensures slots as real >= Integral(stages, startedAt, startedAt, now) - Times(moves, top * EPSILON)
  {
    RefillIsSound(b, now);
  }

  lemma FewerMovesAreLess(n: nat, m: nat, stages: seq<Stage>, top: real)
    requires n <= m && PlanOf(stages, top)
    ensures Times(n, top * EPSILON) <= Times(m, top * EPSILON)
  {
    assert 0.0 < stages[0].rate <= top;
    ProductIsNonNegative(top, EPSILON);
    if n < m {
      TimesGrows(n, m, top * EPSILON);
    }
  }

  /** Twice the stages that are not over at t, and one more while the plan lasts. */
  ghost function StagesAhead(stages: seq<Stage>, startedAt: real, t: real): nat {
    var bounds := BoundsOf(stages, startedAt);
    2 * (|bounds| - StageIndex(bounds, t + EPSILON)) + (if t < startedAt + Total(stages) then 1 else 0)
  }

  /** A move is to the end of the stage that reading `now` falls in, or of the last one; in a run that its
      stages fill that end is still to come. */
  lemma MoveIsToStageEnd(stages: seq<Stage>, startedAt: real, runEnd: real, now: real, wait: real)
    requires stages != [] && WellFormed(stages) && runEnd >= startedAt + Total(stages)
    requires Decide(BoundsOf(stages, startedAt), runEnd, now, wait).MoveTo?
    ensures var bounds := BoundsOf(stages, startedAt);
      var boundary := Decide(bounds, runEnd, now, wait).boundary;
      var i := StageIndex(bounds, now + EPSILON);
      && boundary == (if i < |bounds| then bounds[i].end else startedAt + Total(stages))
      && (boundary <= now ==> startedAt + Total(stages) < runEnd - EPSILON)
  {
    LastBoundIsPlanEnd(stages, startedAt);
  }

  lemma MoveIsWithinStage(stages: seq<Stage>, startedAt: real, runEnd: real, now: real, wait: real)
    requires stages != [] && WellFormed(stages)
    requires Decide(BoundsOf(stages, startedAt), runEnd, now, wait).MoveTo?
    ensures var boundary := Decide(BoundsOf(stages, startedAt), runEnd, now, wait).boundary;
      boundary <= StageEnd(stages, startedAt, now + EPSILON) && now + wait >= boundary - EPSILON
  {
    StageAtIsRateAt(stages, startedAt, now + EPSILON);
  }

  /** A token is taken only if it is there before the end of the stage, and of the run. */
  lemma TokenIsWithinStage(stages: seq<Stage>, startedAt: real, runEnd: real, now: real, wait: real)
    requires stages != [] && WellFormed(stages)
    requires Decide(BoundsOf(stages, startedAt), runEnd, now, wait).TakeToken?
    ensures StageAt(BoundsOf(stages, startedAt), now + EPSILON).rate == RateAt(stages, startedAt, now + EPSILON)
    ensures now + wait < StageEnd(stages, startedAt, now + EPSILON) - EPSILON && now + wait < runEnd - EPSILON
  {
    StageAtIsRateAt(stages, startedAt, now + EPSILON);
  }

  /** What a taker that finds the bucket refilled waits is the time to its next token. */
  lemma WaitIsToNextToken(b: Bucket, now: real, wait: real, later: real)
    requires Sound(b) && b.capacity == 1.0 && b.last == now && NextToken(b) == now + wait
    requires later == now + (if Grants(b, Pass(now, 1.0)) then 0.0 else (1.0 - Refill(b, now).tokens) / b.rate)
    ensures later == now || (b.tokens < 1.0 && later - now == (1.0 - b.tokens) / b.rate)
    ensures later <= now + wait
  {
  }

  lemma MoveMakesProgress(stages: seq<Stage>, startedAt: real, before: real, now: real, boundary: real, later: real)
    requires before <= now < boundary <= later
    requires var bounds := BoundsOf(stages, startedAt);
      var i := StageIndex(bounds, now + EPSILON);
      boundary == if i < |bounds| then bounds[i].end else startedAt + Total(stages)
    ensures StagesAhead(stages, startedAt, later) < StagesAhead(stages, startedAt, before)
  {
    var bounds := BoundsOf(stages, startedAt);
    StageIndexGrows(bounds, before + EPSILON, before + EPSILON, now + EPSILON);
    StageIndexGrows(bounds, now + EPSILON, boundary, later + EPSILON);
  }

  lemma StageIndexGrows(bounds: seq<Bound>, t: real, boundary: real, later: real)
    requires t <= later && boundary <= later
    ensures StageIndex(bounds, t) <= StageIndex(bounds, later)
    ensures StageIndex(bounds, t) < |bounds| && boundary == bounds[StageIndex(bounds, t)].end ==>
      StageIndex(bounds, t) < StageIndex(bounds, later)
  {
  }

  lemma SlotIsWithinPlan(stages: seq<Stage>, startedAt: real, top: real, b: Bucket, slots: nat, takenAt: real)
    requires PlanOf(stages, top) && WithinPlan(stages, startedAt, top, b, slots)
    requires b.last <= takenAt < startedAt + Total(stages) - EPSILON
    ensures slots as real <= Allowance(stages, startedAt, top, takenAt, slots)
  {
    IntegralGrows(stages, startedAt, b.last + EPSILON, takenAt + EPSILON);
  }
}
