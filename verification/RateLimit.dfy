/**
 The token bucket. The value model takes one locked step at a time with any clock reading, so a run
 of steps is an interleaving of threads; the class is the bucket itself, with its sleeping `acquire`.
 */
module RateLimit {
  import opened Wrappers
  import opened Reals

  const MIN_WAIT := 0.000000001

  datatype Bucket = Bucket(rate: real, capacity: real, tokens: real, last: real)

  ghost predicate Sound(b: Bucket) {
    b.rate > 0.0 && b.capacity > 0.0 && 0.0 <= b.tokens <= b.capacity
  }

  /** What a rate earns over a stretch of time. */
  function Area(rate: real, from: real, to: real): real {
    (to - from) * rate
  }

  lemma AreaIsNonNegative(rate: real, from: real, to: real)
    requires rate >= 0.0 && from <= to
    ensures Area(rate, from, to) >= 0.0
  {
    ProductIsNonNegative(to - from, rate);
  }

  /** Credit since the last refill; a reading that is not later than it earns nothing. */
  function Refill(b: Bucket, now: real): Bucket {
    if now > b.last then b.(tokens := Min(b.capacity, b.tokens + Area(b.rate, b.last, now)), last := now) else b
  }

  /** One locked step of some thread, with the reading of the clock it takes. `Pass` is one pass of
      `acquire`, which sleeps outside the lock when it is not granted. */
  datatype Step =
    | SetRate(now: real, rate: real)
    | WaitTime(now: real, wanted: real)
    | TryAcquire(now: real, wanted: real)
    | Pass(now: real, wanted: real)

  /** Arguments the methods accept; the others raise before anything changes. */
  predicate Accepted(b: Bucket, step: Step) {
    match step
    case SetRate(_, rate) => rate > 0.0
    case WaitTime(_, wanted) => wanted > 0.0
    case TryAcquire(_, wanted) => wanted > 0.0
    case Pass(_, wanted) => 0.0 < wanted <= b.capacity
  }

  /** A deficit too small for any clock to wait out is handed over. */
  predicate Sliver(b: Bucket, wanted: real)
    requires b.rate > 0.0
  {
    b.tokens < wanted && (wanted - b.tokens) / b.rate <= MIN_WAIT
  }

  predicate Grants(b: Bucket, step: Step)
    requires b.rate > 0.0
  {
    match step
    case SetRate(_, _) => false
    case WaitTime(_, _) => false
    case TryAcquire(now, wanted) => Refill(b, now).tokens >= wanted
    case Pass(now, wanted) => Refill(b, now).tokens >= wanted || Sliver(Refill(b, now), wanted)
  }

  function After(b: Bucket, step: Step): Bucket
    requires b.rate > 0.0
  {
    if !Accepted(b, step) then b
    else
      var refilled := Refill(b, step.now);
      match step
      case SetRate(_, rate) => refilled.(rate := rate)
      case WaitTime(_, _) => refilled
      case _ =>
        if Grants(b, step) then refilled.(tokens := Max(0.0, refilled.tokens - step.wanted)) else refilled
  }

  lemma StepIsSound(b: Bucket, step: Step)
    requires Sound(b)
    ensures Sound(After(b, step))
    ensures After(b, step).capacity == b.capacity
  {
    RefillIsSound(b, step.now);
  }

  lemma RefillIsSound(b: Bucket, now: real)
    requires Sound(b)
    ensures Sound(Refill(b, now)) && Refill(b, now).tokens >= b.tokens
  {
    hide Area;
    if now > b.last {
      AreaIsNonNegative(b.rate, b.last, now);
    }
  }

  function Run(b: Bucket, steps: seq<Step>): (r: Bucket)
    requires Sound(b)
    ensures Sound(r) && r.capacity == b.capacity
  {
    if steps == [] then b
    else
      var before := Run(b, steps[..|steps| - 1]);
      StepIsSound(before, steps[|steps| - 1]);
      After(before, steps[|steps| - 1])
  }

  // What the run is measured against: the readings and rates alone

  /** The greatest reading any accepted step has taken. */
  function HighWater(b: Bucket, steps: seq<Step>): real
  {
    if steps == [] then b.last
    else
      var step := steps[|steps| - 1];
      var before := HighWater(b, steps[..|steps| - 1]);
      if Accepted(b, step) then Max(before, step.now) else before
  }

  /** The rate last set. */
  function RateNow(b: Bucket, steps: seq<Step>): real {
    if steps == [] then b.rate
    else
      var step := steps[|steps| - 1];
      if step.SetRate? && Accepted(b, step) then step.rate else RateNow(b, steps[..|steps| - 1])
  }

  /** The integral of the rate in force over the greatest reading so far. */
  function RateIntegral(b: Bucket, steps: seq<Step>): real {
    if steps == [] then 0.0
    else
      var before := steps[..|steps| - 1];
      RateIntegral(b, before) + Area(RateNow(b, before), HighWater(b, before), HighWater(b, steps))
  }

  function StepGrant(b: Bucket, step: Step): real
    requires b.rate > 0.0
  {
    if Accepted(b, step) && Grants(b, step) then step.wanted else 0.0
  }

  /** One shortest wait's worth of tokens for a grant. */
  function StepSlack(b: Bucket, step: Step): real
    requires b.rate > 0.0
  {
    if Accepted(b, step) && Grants(b, step) then MIN_WAIT * b.rate else 0.0
  }

  function Granted(b: Bucket, steps: seq<Step>): real
    requires Sound(b)
  {
    if steps == [] then 0.0
    else
      var before := steps[..|steps| - 1];
      Granted(b, before) + StepGrant(Run(b, before), steps[|steps| - 1])
  }

  function Slack(b: Bucket, steps: seq<Step>): real
    requires Sound(b)
  {
    if steps == [] then 0.0
    else
      var before := steps[..|steps| - 1];
      Slack(b, before) + StepSlack(Run(b, before), steps[|steps| - 1])
  }

  lemma {:induction false} RunFollowsReadings(b: Bucket, steps: seq<Step>)
    requires Sound(b)
    ensures Run(b, steps).last == HighWater(b, steps)
    ensures Run(b, steps).rate == RateNow(b, steps)
  {
    if steps != [] {
      RunFollowsReadings(b, steps[..|steps| - 1]);
    }
  }

  /** What the time a step's reading adds to the clock's greatest reading earns. */
  function Earned(b: Bucket, step: Step): real
    requires b.rate > 0.0
  {
    Area(b.rate, b.last, After(b, step).last)
  }

  lemma AreaOfNothing(rate: real, at: real)
    ensures Area(rate, at, at) == 0.0
  {
  }

  /** One step neither mints nor grants more than its reading earns. */
  lemma StepConserves(b: Bucket, step: Step)
    requires Sound(b)
    ensures After(b, step).tokens + StepGrant(b, step)
      <= b.tokens + Earned(b, step) + StepSlack(b, step)
  {
    hide Area;
    AreaOfNothing(b.rate, b.last);
    if Accepted(b, step) {
      var refilled := Refill(b, step.now);
      assert refilled.tokens <= b.tokens + Area(b.rate, b.last, refilled.last);
      if Grants(b, step) && refilled.tokens < step.wanted {
        var deficit := step.wanted - refilled.tokens;
        Scales(deficit, deficit / b.rate, MIN_WAIT, b.rate);
      }
    }
  }

  lemma IntegralStep(b: Bucket, steps: seq<Step>)
    requires Sound(b) && steps != []
    ensures var before := steps[..|steps| - 1];
      var r := Run(b, before);
      RateIntegral(b, steps) == RateIntegral(b, before) + Earned(r, steps[|steps| - 1])
  {
    hide Area, After, HighWater, RateNow;
    RunFollowsReadings(b, steps[..|steps| - 1]);
    RunFollowsReadings(b, steps);
  }

  /** Adding one step's balance to a run's. */
  lemma BalancesAdd(t0: real, t1: real, t2: real, g1: real, g: real, i1: real, e: real, s1: real, s: real)
    requires t1 + g1 <= t0 + i1 + s1 && t2 + g <= t1 + e + s
    ensures t2 + (g1 + g) <= t0 + (i1 + e) + (s1 + s)
  {
  }

  lemma {:induction false} RunConserves(b: Bucket, steps: seq<Step>)
    requires Sound(b)
    ensures Run(b, steps).tokens + Granted(b, steps) <= b.tokens + RateIntegral(b, steps) + Slack(b, steps)
  {
    if steps != [] {
      var before := steps[..|steps| - 1];
      var step := steps[|steps| - 1];
      RunConserves(b, before);
      var r := Run(b, before);
      IntegralStep(b, steps);
      StepConserves(r, step);
      BalancesAdd(b.tokens, r.tokens, After(r, step).tokens, Granted(b, before), StepGrant(r, step),
        RateIntegral(b, before), Earned(r, step), Slack(b, before), StepSlack(r, step));
    }
  }

  lemma {:induction false} RunsCompose(b: Bucket, first: seq<Step>, second: seq<Step>)
    requires Sound(b)
    ensures Run(b, first + second) == Run(Run(b, first), second)
  {
    if second == [] {
      assert first + second == first;
    } else {
      RunsCompose(b, first, second[..|second| - 1]);
      assert (first + second)[..|first + second| - 1] == first + second[..|second| - 1];
    }
  }

  /** Over any interleaving of any threads, whatever the clock reads: in every window of the run the
      tokens granted are at most a full bucket, plus the integral of the rate over the window, plus
      one sliver per grant; and the count stays within the bucket. */
  lemma WindowBound(b: Bucket, earlier: seq<Step>, window: seq<Step>)
    requires Sound(b)
    ensures Sound(Run(b, earlier + window))
    ensures var start := Run(b, earlier);
      Granted(start, window) <= b.capacity + RateIntegral(start, window) + Slack(start, window)
  {
    RunsCompose(b, earlier, window);
    RunConserves(Run(b, earlier), window);
  }

  /** Setting the rate keeps the credit earned at the old rate: reading the bucket at `now` before
      and after the change shows the same tokens, and credit after it accrues at the new rate. */
  lemma RateChangeKeepsCredit(b: Bucket, now: real, rate: real, later: real)
    requires Sound(b) && rate > 0.0 && later >= now >= b.last
    ensures var changed := After(b, SetRate(now, rate));
      && changed.tokens == After(b, WaitTime(now, 1.0)).tokens
      && Refill(changed, later).tokens
           == Min(b.capacity, Min(b.capacity, b.tokens + (now - b.last) * b.rate) + (later - now) * rate)
  {
    AreaIsNonNegative(b.rate, b.last, now);
    AreaIsNonNegative(rate, now, later);
  }
}
