/**
 The open-loop schedule, fixed before the run starts, and the capacity-2 gate that checks it.
 */
module OpenLoop {
  import opened Reals
  import opened RateLimit
  import opened Plans

  datatype Arrival = Arrival(index: nat, offset: real, rate: real)

  const GATE_CAPACITY := 2.0

  /** Python's `round`: to the nearest integer, halves to the even one. */
  function Round(x: real): (n: int)
    ensures -0.5 <= n as real - x <= 0.5
    ensures (n as real - x == 0.5 || n as real - x == -0.5) ==> n % 2 == 0
  {
    var low := x.Floor;
    var part := x - low as real;
    if part < 0.5 || (part == 0.5 && low % 2 == 0) then low else low + 1
  }

  function Count(stage: Stage): nat {
    var n := Round(stage.rate * stage.duration);
    if n < 0 then 0 else n
  }

  /** Where the stages that last any time end. */
  function PlanEnd(stages: seq<Stage>): real {
    if stages == [] then 0.0
    else PlanEnd(stages[..|stages| - 1]) + Max(0.0, stages[|stages| - 1].duration)
  }

  function Interval(rate: real): real
    requires rate > 0.0
  {
    1.0 / rate
  }

  lemma IntervalOf(rate: real)
    requires rate > 0.0
    ensures Interval(rate) > 0.0 && rate * Interval(rate) == 1.0
  {
  }

  /** `count` arrivals, an interval apart from `start` on. */
  function Spaced(first: nat, start: real, rate: real, interval: real, count: nat): seq<Arrival> {
    seq(count, step requires 0 <= step < count => ArrivalAt(first, start, rate, interval, step))
  }

  function ArrivalAt(first: nat, start: real, rate: real, interval: real, step: nat): Arrival {
    Arrival(first + step, start + step as real * interval, rate)
  }

  lemma OneMoreSpaced(first: nat, start: real, rate: real, interval: real, count: nat)
    ensures Spaced(first, start, rate, interval, count + 1)
         == Spaced(first, start, rate, interval, count) + [ArrivalAt(first, start, rate, interval, count)]
  {
  }

  ghost predicate Rated(stages: seq<Stage>) {
    forall i :: 0 <= i < |stages| && stages[i].duration > 0.0 ==> stages[i].rate > 0.0
  }

  function Schedule(stages: seq<Stage>): seq<Arrival>
    requires Rated(stages)
  {
    if stages == [] then []
    else
      var before := Schedule(stages[..|stages| - 1]);
      var last := stages[|stages| - 1];
      if last.duration <= 0.0 then before
      else before + Spaced(|before|, PlanEnd(stages[..|stages| - 1]), last.rate, Interval(last.rate), Count(last))
  }

  /** The schedule as the code builds it, stage by stage and arrival by arrival. */
  method ArrivalSchedule(stages: seq<Stage>) returns (arrivals: seq<Arrival>)
    requires Rated(stages)
    ensures arrivals == Schedule(stages)
  {
    arrivals := [];
    var stageStart := 0.0;
    for i := 0 to |stages|
      invariant arrivals == Schedule(stages[..i]) && stageStart == PlanEnd(stages[..i])
    {
      assert stages[..i + 1][..i] == stages[..i];
      if stages[i].duration > 0.0 {
        arrivals := AddStage(stages[i], stageStart, arrivals);
        stageStart := stageStart + stages[i].duration;
      }
    }
    assert stages[..|stages|] == stages;
  }

  method AddStage(stage: Stage, stageStart: real, before: seq<Arrival>) returns (arrivals: seq<Arrival>)
    requires stage.rate > 0.0
    ensures arrivals == before + Spaced(|before|, stageStart, stage.rate, Interval(stage.rate), Count(stage))
  {
    var count := Count(stage);
    var interval := Interval(stage.rate);
    arrivals := before;
    for step := 0 to count
      invariant arrivals == before + Spaced(|before|, stageStart, stage.rate, interval, step)
    {
      var next := Arrival(|arrivals|, stageStart + step as real * interval, stage.rate);
      OneMoreSpaced(|before|, stageStart, stage.rate, interval, step);
      assert next == ArrivalAt(|before|, stageStart, stage.rate, interval, step);
      arrivals := arrivals + [next];
    }
  }

  // Where each arrival lies

  /** The stage each arrival belongs to. */
  ghost function Homes(stages: seq<Stage>): (homes: seq<nat>)
    requires Rated(stages)
    ensures |homes| == |Schedule(stages)|
    ensures forall k :: 0 <= k < |homes| ==> homes[k] < |stages|
  {
    if stages == [] then []
    else
      var n := |stages| - 1;
      var before := Homes(stages[..n]);
      if stages[n].duration <= 0.0 then before else before + seq(Count(stages[n]), _ => n)
  }

  /** The arrival is in its own stage, and at least half an interval before that stage's end. */
  ghost predicate AtHome(stages: seq<Stage>, a: Arrival, home: nat)
    requires home < |stages|
  {
    && stages[home].duration > 0.0 && a.rate == stages[home].rate > 0.0
    && PlanEnd(stages[..home]) <= a.offset <= PlanEnd(stages[..home + 1]) - 0.5 * Interval(a.rate)
  }

  lemma BlockFits(rate: real, duration: real, count: nat, step: nat)
    requires rate > 0.0 && count as real <= rate * duration + 0.5 && step < count
    ensures 0.0 <= step as real * Interval(rate) <= duration - 0.5 * Interval(rate)
  {
    var interval := Interval(rate);
    IntervalOf(rate);
    ProductIsNonNegative(step as real, interval);
    ProductIsNonNegative(rate * duration - 0.5 - step as real, interval);
    assert (rate * duration) * interval == duration * (rate * interval);
  }

  lemma CountIsClose(stage: Stage)
    requires stage.rate > 0.0 && stage.duration > 0.0
    ensures -0.5 <= Count(stage) as real - stage.rate * stage.duration <= 0.5
  {
    var x := stage.rate * stage.duration;
    ProductIsNonNegative(stage.rate, stage.duration);
    assert Round(x) as real >= x - 0.5 >= -0.5;
  }

  lemma NewArrivalIsAtHome(stages: seq<Stage>, first: nat, step: nat)
    requires stages != []
    requires var last := stages[|stages| - 1]; last.duration > 0.0 && last.rate > 0.0 && step < Count(last)
    ensures var n := |stages| - 1;
      AtHome(stages, ArrivalAt(first, PlanEnd(stages[..n]), stages[n].rate, Interval(stages[n].rate), step), n)
  {
    var n := |stages| - 1;
    CountIsClose(stages[n]);
    BlockFits(stages[n].rate, stages[n].duration, Count(stages[n]), step);
    assert stages[..n + 1] == stages;
  }

  lemma StaysAtHome(stages: seq<Stage>, n: nat, a: Arrival, home: nat)
    requires home < n <= |stages| && AtHome(stages[..n], a, home)
    ensures AtHome(stages, a, home)
  {
    assert stages[..n][..home] == stages[..home] && stages[..n][..home + 1] == stages[..home + 1];
  }

  /** The last stage's arrivals close the schedule; the rest of it is the schedule without it. */
  lemma LastBlock(stages: seq<Stage>, k: nat)
    requires Rated(stages) && k < |Schedule(stages)|
    ensures var n := |stages| - 1;
      var m := |Schedule(stages[..n])|;
      && (k < m ==> Schedule(stages)[k] == Schedule(stages[..n])[k] && Homes(stages)[k] == Homes(stages[..n])[k])
      && (k >= m ==> stages[n].rate > 0.0 && stages[n].duration > 0.0 && k - m < Count(stages[n]) && Homes(stages)[k] == n)
      && (k >= m ==> Schedule(stages)[k] == ArrivalAt(m, PlanEnd(stages[..n]), stages[n].rate, Interval(stages[n].rate), k - m))
  {
  }

  lemma {:induction false} EveryArrivalIsAtHome(stages: seq<Stage>, k: nat)
    requires Rated(stages) && k < |Schedule(stages)|
    ensures Schedule(stages)[k].index == k
    ensures AtHome(stages, Schedule(stages)[k], Homes(stages)[k])
    decreases |stages|
  {
    var n := |stages| - 1;
    var m := |Schedule(stages[..n])|;
    LastBlock(stages, k);
    if k < m {
      EveryArrivalIsAtHome(stages[..n], k);
      StaysAtHome(stages, n, Schedule(stages)[k], Homes(stages)[k]);
    } else {
      NewArrivalIsAtHome(stages, m, k - m);
    }
  }

  lemma {:induction false} PlanEndGrows(stages: seq<Stage>, i: nat, j: nat)
    requires i <= j <= |stages|
    ensures PlanEnd(stages[..i]) <= PlanEnd(stages[..j])
    decreases j
  {
    if i < j {
      assert stages[..j][..j - 1] == stages[..j - 1];
      PlanEndGrows(stages, i, j - 1);
    }
  }

  lemma {:induction false} NeighbourHomes(stages: seq<Stage>, k: nat)
    requires Rated(stages) && k + 1 < |Schedule(stages)|
    ensures Homes(stages)[k] <= Homes(stages)[k + 1] && Schedule(stages)[k].rate > 0.0
    ensures Homes(stages)[k] == Homes(stages)[k + 1] ==>
      Schedule(stages)[k + 1].offset - Schedule(stages)[k].offset == Interval(Schedule(stages)[k].rate)
    decreases |stages|
  {
    var n := |stages| - 1;
    var m := |Schedule(stages[..n])|;
    LastBlock(stages, k);
    LastBlock(stages, k + 1);
    if k + 1 < m {
      NeighbourHomes(stages[..n], k);
    } else if k >= m {
      StepsApart(m, PlanEnd(stages[..n]), stages[n].rate, Interval(stages[n].rate), k - m);
    } else {
      EveryArrivalIsAtHome(stages[..n], k);
    }
  }

  lemma StepsApart(first: nat, start: real, rate: real, interval: real, step: nat)
    ensures ArrivalAt(first, start, rate, interval, step + 1).offset
          - ArrivalAt(first, start, rate, interval, step).offset == interval
  {
    assert (step + 1) as real * interval == step as real * interval + interval;
  }

  /** The schedule is strictly increasing: an interval apart inside a stage, and at least half an
      interval apart across stages. */
  lemma ArrivalsAreSpaced(stages: seq<Stage>, k: nat)
    requires Rated(stages) && k + 1 < |Schedule(stages)|
    ensures var a, b := Schedule(stages)[k], Schedule(stages)[k + 1];
      && a.rate > 0.0 && b.offset > a.offset
      && (Homes(stages)[k] == Homes(stages)[k + 1] ==> b.offset - a.offset == Interval(a.rate))
      && (Homes(stages)[k] != Homes(stages)[k + 1] ==> b.offset - a.offset >= 0.5 * Interval(a.rate))
  {
    EveryArrivalIsAtHome(stages, k);
    EveryArrivalIsAtHome(stages, k + 1);
    NeighbourHomes(stages, k);
    var i, j := Homes(stages)[k], Homes(stages)[k + 1];
    if i < j {
      PlanEndGrows(stages, i + 1, j);
    }
    IntervalOf(Schedule(stages)[k].rate);
  }

  function Amount(stage: Stage): real {
    if stage.duration > 0.0 then stage.rate * stage.duration else 0.0
  }

  /** What is planned over all stages that last any time. */
  function Planned(stages: seq<Stage>): real {
    if stages == [] then 0.0 else Planned(stages[..|stages| - 1]) + Amount(stages[|stages| - 1])
  }

  /** Rounding moves the number of arrivals by at most half a request per stage. */
  lemma {:induction false} ArrivalsMatchThePlan(stages: seq<Stage>)
    requires Rated(stages)
    ensures Planned(stages) - 0.5 * |stages| as real <= |Schedule(stages)| as real <= Planned(stages) + 0.5 * |stages| as real
  {
    if stages != [] {
      var n := |stages| - 1;
      ArrivalsMatchThePlan(stages[..n]);
      if stages[n].duration > 0.0 {
        CountIsClose(stages[n]);
      }
    }
  }

  lemma {:induction false} PlannedFirst(stages: seq<Stage>)
    requires stages != []
    ensures Planned(stages) == Amount(stages[0]) + Planned(stages[1..])
  {
    hide Amount;
    var n := |stages| - 1;
    if n > 0 {
      assert stages[..n][1..] == stages[1..][..n - 1];
      PlannedFirst(stages[..n]);
    }
  }

  /** What is planned is the plan's integral over any window that holds all its stages. */
  lemma {:induction false} PlannedIsTheIntegral(stages: seq<Stage>, at: real, from: real, to: real)
    requires forall i :: 0 <= i < |stages| ==> stages[i].duration >= 0.0
    requires from <= at && at + Total(stages) <= to
    ensures Planned(stages) == Integral(stages, at, from, to) && Total(stages) >= 0.0
  {
    hide Amount, Piece;
    if stages != [] {
      PlannedFirst(stages);
      WindowHolds(stages[1..]);
      WholePiece(stages[0], at, from, to);
      PlannedIsTheIntegral(stages[1..], at + stages[0].duration, from, to);
    }
  }

  /** A whole run asks for the hold at the target rate and, for the warmup, half of what the target rate would
      give and half a step more. */
  lemma PlannedOfARun(target: real, warmup: real, hold: real, steps: int)
    requires target > 0.0 && warmup >= 0.0 && hold > 0.0 && steps >= 0
    ensures Planned(BuildStages(target, warmup, hold, steps)) == target * hold
      + (if warmup > 0.0 && steps > 0 then target * warmup * (steps + 1) as real / (2 * steps) as real else 0.0)
  {
    hide RampStage, StepAmount;
    var ramp := RampStages(target, warmup, steps);
    var stages := BuildStages(target, warmup, hold, steps);
    assert stages[..|ramp|] == ramp && stages == ramp + [Stage(target, hold)];
    if ramp != [] {
      var x := StepAmount(target, warmup, steps);
      PlannedOfTheRamp(target, warmup, steps, steps);
      assert ramp[..steps] == ramp;
      HalfAndAStep(target, warmup, steps, x, Planned(ramp));
    }
  }

  /** What the first step of the warmup asks for. */
  function StepAmount(target: real, warmup: real, steps: int): real
    requires steps > 0
  {
    target / steps as real * (warmup / steps as real)
  }

  lemma {:induction false} PlannedOfTheRamp(target: real, warmup: real, steps: int, n: nat)
    requires target > 0.0 && warmup > 0.0 && n <= steps && steps > 0
    ensures 2.0 * Planned(RampStages(target, warmup, steps)[..n]) == (n * (n + 1)) as real * StepAmount(target, warmup, steps)
  {
    if n > 0 {
      var ramp := RampStages(target, warmup, steps);
      PlannedOfTheRamp(target, warmup, steps, n - 1);
      assert ramp[..n][..n - 1] == ramp[..n - 1];
      var x := StepAmount(target, warmup, steps);
      StepOfTheRamp(target, warmup, steps, n - 1);
      OneMoreStep(n, x);
    }
  }

  lemma StepOfTheRamp(target: real, warmup: real, steps: int, i: nat)
    requires target > 0.0 && warmup > 0.0 && i < steps
    ensures Amount(RampStage(target, warmup, steps, i)) == (i + 1) as real * StepAmount(target, warmup, steps)
  {
    var n, k := steps as real, (i + 1) as real;
    var r, d := target / n, warmup / n;
    assert target == r * n;
    assert target * k == r * k * n;
    assert target * k / n == r * k;
    assert r * k * d == k * (r * d);
  }

  lemma OneMoreStep(n: nat, x: real)
    requires n > 0
    ensures ((n - 1) * n) as real * x + 2.0 * (n as real * x) == (n * (n + 1)) as real * x
  {
    assert (n - 1) * n + 2 * n == n * (n + 1);
    assert ((n - 1) * n) as real + 2.0 * n as real == (n * (n + 1)) as real;
  }

  lemma HalfAndAStep(target: real, warmup: real, steps: int, x: real, sum: real)
    requires steps > 0 && x == StepAmount(target, warmup, steps) && 2.0 * sum == (steps * (steps + 1)) as real * x
    ensures sum == target * warmup * (steps + 1) as real / (2 * steps) as real
  {
    var n, m := steps as real, (steps + 1) as real;
    var r, d := target / n, warmup / n;
    assert target == r * n && warmup == d * n;
    assert (steps * (steps + 1)) as real == n * m;
    assert 2.0 * sum == n * m * (r * d);
    assert target * warmup * m == n * (n * m * (r * d));
    assert (2 * steps) as real == 2.0 * n;
    assert target * warmup * m == sum * (2.0 * n);
  }

  lemma WholePiece(stage: Stage, at: real, from: real, to: real)
    requires stage.duration >= 0.0 && from <= at && at + stage.duration <= to
    ensures Piece(stage, at, from, to) == Amount(stage)
  {
  }

  lemma {:induction false} WindowHolds(stages: seq<Stage>)
    requires forall i :: 0 <= i < |stages| ==> stages[i].duration >= 0.0
    ensures Total(stages) >= 0.0
  {
    if stages != [] {
      WindowHolds(stages[1..]);
    }
  }

  // The gate

  /** The gate as arrival k finds it: a full one whenever the rate has changed. */
  function GateBefore(schedule: seq<Arrival>, times: seq<real>, k: nat): Bucket
    requires |times| == |schedule| && k < |schedule|
    requires forall i :: 0 <= i < |schedule| ==> schedule[i].rate > 0.0
    decreases k, 0
  {
    if k == 0 || schedule[k - 1].rate != schedule[k].rate
    then Bucket(schedule[k].rate, GATE_CAPACITY, GATE_CAPACITY, times[k])
    else GateAfter(schedule, times, k - 1)
  }

  function GateAfter(schedule: seq<Arrival>, times: seq<real>, k: nat): (b: Bucket)
    requires |times| == |schedule| && k < |schedule|
    requires forall i :: 0 <= i < |schedule| ==> schedule[i].rate > 0.0
    ensures b.rate == schedule[k].rate
    decreases k, 1
  {
    After(GateBefore(schedule, times, k), Pass(times[k], 1.0))
  }

  /** Every arrival reaches the gate on time, or late by at most half an interval. */
  ghost predicate OnTime(schedule: seq<Arrival>, times: seq<real>) {
    && |times| == |schedule|
    && (forall k :: 0 <= k < |schedule| ==> schedule[k].rate > 0.0)
    && forall k :: 0 <= k < |schedule| ==>
         schedule[k].offset <= times[k] <= schedule[k].offset + 0.5 * Interval(schedule[k].rate)
  }

  /** Only the last stage may run at the rate of the one before it. */
  ghost predicate RatesRise(stages: seq<Stage>) {
    forall i, j :: 0 <= i < j < |stages| - 1 ==> stages[i].rate != stages[j].rate
  }

  /** What the gate keeps in hand after an arrival: the lateness it has absorbed, less what it owes. */
  ghost predicate Keeps(b: Bucket, rate: real, now: real, late: real, owed: real) {
    && b.last == now && b.capacity == GATE_CAPACITY && b.rate == rate && b.tokens <= GATE_CAPACITY
    && b.tokens >= 0.5 + rate * late - owed
  }

  /** Half a token, once the gate has crossed into the last stage. */
  ghost function Owed(stages: seq<Stage>, k: nat): real
    requires Rated(stages) && k < |Schedule(stages)|
  {
    if Homes(stages)[k] == |stages| - 1 then 0.5 else 0.0
  }

  ghost predicate InHand(stages: seq<Stage>, times: seq<real>, k: nat)
    requires Rated(stages) && k < |Schedule(stages)| && OnTime(Schedule(stages), times)
  {
    var a := Schedule(stages)[k];
    Keeps(GateAfter(Schedule(stages), times, k), a.rate, times[k], times[k] - a.offset, Owed(stages, k))
  }

  lemma LatenessInTokens(rate: real, late: real)
    requires rate > 0.0 && 0.0 <= late <= 0.5 * Interval(rate)
    ensures 0.0 <= rate * late <= 0.5
  {
    var interval := Interval(rate);
    IntervalOf(rate);
    ProductIsNonNegative(rate, late);
    ProductIsNonNegative(rate, 0.5 * interval - late);
    assert rate * (0.5 * interval) == 0.5;
  }

  /** One arrival at a gate that goes on: the tokens earned since the last one, lateness included. */
  lemma GateArithmetic(rate: real, gap: real, late: real, later: real, tokens: real, owed: real, same: bool)
    requires rate > 0.0 && 0.0 <= late <= 0.5 * Interval(rate) && 0.0 <= later <= 0.5 * Interval(rate)
    requires if same then gap == Interval(rate) else gap >= 0.5 * Interval(rate)
    requires 0.0 <= owed <= 0.5 && (!same ==> owed == 0.0)
    requires tokens >= 0.5 + rate * late - owed
    ensures var before := Min(2.0, tokens + (gap + later - late) * rate);
      before >= 1.0 && before - 1.0 >= 0.5 + rate * later - (if same then owed else 0.5)
    ensures gap + later - late >= 0.0
  {
    var interval := Interval(rate);
    IntervalOf(rate);
    LatenessInTokens(rate, late);
    LatenessInTokens(rate, later);
    EarnedOverGap(rate, interval, gap, late, later, if same then 1.0 else 0.5);
  }

  lemma EarnedOverGap(rate: real, interval: real, gap: real, late: real, later: real, least: real)
    requires rate > 0.0 && interval * rate == 1.0 && least >= 0.0 && gap >= least * interval
    ensures (gap + later - late) * rate >= least + rate * later - rate * late
  {
    ProductIsNonNegative(gap - least * interval, rate);
    assert (least * interval) * rate == least * (interval * rate);
    assert (gap + later - late) * rate == gap * rate + rate * later - rate * late;
  }

  lemma GrantedPass(b: Bucket, now: real)
    requires b.rate > 0.0 && b.capacity == GATE_CAPACITY && Refill(b, now).tokens >= 1.0
    ensures After(b, Pass(now, 1.0)) == Refill(b, now).(tokens := Refill(b, now).tokens - 1.0)
  {
  }

  lemma FreshGateKeeps(rate: real, now: real, late: real, owed: real)
    requires rate > 0.0 && 0.0 <= late <= 0.5 * Interval(rate) && owed >= 0.0
    ensures Refill(Bucket(rate, GATE_CAPACITY, GATE_CAPACITY, now), now).tokens >= 1.0
    ensures Keeps(After(Bucket(rate, GATE_CAPACITY, GATE_CAPACITY, now), Pass(now, 1.0)), rate, now, late, owed)
  {
    LatenessInTokens(rate, late);
    GrantedPass(Bucket(rate, GATE_CAPACITY, GATE_CAPACITY, now), now);
  }

  /** The same gate, one arrival on: still in hand, and without a wait. */
  lemma GateKeeps(b: Bucket, rate: real, was: real, late: real, owed: real, gap: real, now: real, later: real,
      same: bool)
    requires rate > 0.0 && Keeps(b, rate, was, late, owed) && now - was == gap + later - late
    requires 0.0 <= late <= 0.5 * Interval(rate) && 0.0 <= later <= 0.5 * Interval(rate)
    requires if same then gap == Interval(rate) else gap >= 0.5 * Interval(rate)
    requires 0.0 <= owed <= 0.5 && (!same ==> owed == 0.0)
    ensures Refill(b, now).tokens >= 1.0
    ensures Keeps(After(b, Pass(now, 1.0)), rate, now, later, if same then owed else 0.5)
  {
    hide Area, Refill, After, Interval;
    GateArithmetic(rate, gap, late, later, b.tokens, owed, same);
    RefillAfter(b, now, gap + later - late);
    GrantedPass(b, now);
  }

  lemma RefillAfter(b: Bucket, now: real, elapsed: real)
    requires elapsed >= 0.0 && now - b.last == elapsed && b.tokens <= b.capacity
    ensures Refill(b, now) == b.(tokens := Min(b.capacity, b.tokens + elapsed * b.rate), last := now)
  {
  }

  /** Two arrivals that share a gate share a stage, or lie either side of the last boundary. */
  lemma SharedGate(stages: seq<Stage>, k: nat)
    requires Rated(stages) && RatesRise(stages) && k + 1 < |Schedule(stages)|
    requires Schedule(stages)[k].rate == Schedule(stages)[k + 1].rate
    ensures Homes(stages)[k] != Homes(stages)[k + 1] ==> Owed(stages, k) == 0.0 && Owed(stages, k + 1) == 0.5
  {
    EveryArrivalIsAtHome(stages, k);
    EveryArrivalIsAtHome(stages, k + 1);
    NeighbourHomes(stages, k);
  }

  lemma GateGoesOn(stages: seq<Stage>, times: seq<real>, k: nat)
    requires Rated(stages) && RatesRise(stages) && k + 1 < |Schedule(stages)| && OnTime(Schedule(stages), times)
    requires InHand(stages, times, k) && Schedule(stages)[k].rate == Schedule(stages)[k + 1].rate
    ensures Refill(GateAfter(Schedule(stages), times, k), times[k + 1]).tokens >= 1.0
    ensures var a := Schedule(stages)[k + 1];
      Keeps(After(GateAfter(Schedule(stages), times, k), Pass(times[k + 1], 1.0)),
        a.rate, times[k + 1], times[k + 1] - a.offset, Owed(stages, k + 1))
  {
    var s := Schedule(stages);
    ArrivalsAreSpaced(stages, k);
    SharedGate(stages, k);
    var same := Homes(stages)[k] == Homes(stages)[k + 1];
    GateKeeps(GateAfter(s, times, k), s[k].rate, times[k], times[k] - s[k].offset, Owed(stages, k),
      s[k + 1].offset - s[k].offset, times[k + 1], times[k + 1] - s[k + 1].offset, same);
  }

  /** As long as no arrival is more than half an interval late, the gate never makes one wait, even
      where the last ramp step and the hold share a gate. */
  lemma {:induction false} GateNeverWaits(stages: seq<Stage>, times: seq<real>, k: nat)
    requires Rated(stages) && RatesRise(stages) && k < |Schedule(stages)| && OnTime(Schedule(stages), times)
    ensures Refill(GateBefore(Schedule(stages), times, k), times[k]).tokens >= 1.0
    ensures InHand(stages, times, k)
  {
    var s := Schedule(stages);
    if k == 0 || s[k - 1].rate != s[k].rate {
      FreshGateKeeps(s[k].rate, times[k], times[k] - s[k].offset, Owed(stages, k));
    } else {
      GateNeverWaits(stages, times, k - 1);
      GateGoesOn(stages, times, k - 1);
    }
  }

  lemma RunStagesRise(target: real, warmup: real, hold: real, steps: int)
    requires target > 0.0 && hold > 0.0
    ensures RatesRise(BuildStages(target, warmup, hold, steps))
  {
    var stages := BuildStages(target, warmup, hold, steps);
    forall i, j | 0 <= i < j < |stages| - 1
      ensures stages[i].rate != stages[j].rate
    {
      RampRate(target, warmup, hold, steps, i);
      RampRate(target, warmup, hold, steps, j);
      StepsDiffer(target, steps as real, (i + 1) as real, (j + 1) as real);
    }
  }

  lemma RampRate(target: real, warmup: real, hold: real, steps: int, i: nat)
    requires hold > 0.0 && i < |BuildStages(target, warmup, hold, steps)| - 1
    ensures steps > 0 && BuildStages(target, warmup, hold, steps)[i].rate == target * (i + 1) as real / steps as real
  {
  }

  lemma StepsDiffer(target: real, n: real, i: real, j: real)
    requires target > 0.0 && n > 0.0 && i != j
    ensures target * i / n != target * j / n
  {
    assert target * (j - i) != 0.0;
    assert target * i != target * j;
  }

  /** For every plan a run accepts, a run that stays on time has no gate wait at all. */
  lemma OnTimeRunHasNoGateWaits(target: real, warmup: real, hold: real, steps: int, times: seq<real>, k: nat)
    requires target > 0.0 && warmup >= 0.0 && hold > 0.0 && steps >= 0
    requires Rated(BuildStages(target, warmup, hold, steps))
    requires OnTime(Schedule(BuildStages(target, warmup, hold, steps)), times) && k < |times|
    ensures Refill(GateBefore(Schedule(BuildStages(target, warmup, hold, steps)), times, k), times[k]).tokens >= 1.0
  {
    RunStagesRise(target, warmup, hold, steps);
    GateNeverWaits(BuildStages(target, warmup, hold, steps), times, k);
  }
}
