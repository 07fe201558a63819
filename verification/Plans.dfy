/**
 Load plans: the warmup staircase, the integral of the planned rate, and the rate in force.
 */
module Plans {
  import opened Reals

  datatype Stage = Stage(rate: real, duration: real)

  function RampStage(target: real, warmup: real, steps: int, i: int): Stage
    requires 0 <= i < steps
  {
    Stage(target * (i + 1) as real / steps as real, warmup / steps as real)
  }

  /** The warmup staircase from 0 to the target rate. */
  function RampStages(target: real, warmup: real, steps: int): seq<Stage> {
    if warmup <= 0.0 || steps <= 0 then [] else seq(steps, i requires 0 <= i < steps => RampStage(target, warmup, steps, i))
  }

  function BuildStages(target: real, warmup: real, hold: real, steps: int): seq<Stage> {
    RampStages(target, warmup, steps) + (if hold > 0.0 then [Stage(target, hold)] else [])
  }

  function Total(stages: seq<Stage>): real {
    if stages == [] then 0.0 else stages[0].duration + Total(stages[1..])
  }

  /** What one stage, in force from `at`, contributes between `from` and `to`. */
  function Piece(stage: Stage, at: real, from: real, to: real): real {
    var lo := Max(from, at);
    var hi := Min(to, at + stage.duration);
    if hi > lo then stage.rate * (hi - lo) else 0.0
  }

  /** Requests the plan asks for between `from` and `to`, with the stages laid end to end from `at`. */
  function Integral(stages: seq<Stage>, at: real, from: real, to: real): real {
    if stages == [] then 0.0
    else Piece(stages[0], at, from, to) + Integral(stages[1..], at + stages[0].duration, from, to)
  }

  ghost predicate WellFormed(stages: seq<Stage>) {
    forall i :: 0 <= i < |stages| ==> stages[i].duration > 0.0 && stages[i].rate > 0.0
  }

  ghost predicate NonDecreasing(stages: seq<Stage>) {
    forall i, j :: 0 <= i <= j < |stages| ==> stages[i].rate <= stages[j].rate
  }

  /** The rate of the first stage that ends after t, or of the last stage. */
  function RateAt(stages: seq<Stage>, at: real, t: real): real
    requires stages != []
  {
    if |stages| == 1 || t < at + stages[0].duration then stages[0].rate
    else RateAt(stages[1..], at + stages[0].duration, t)
  }

  // The integral

  lemma Adds(x: real, a: real, b: real, sum: real)
    requires a + b == sum
    ensures x * a + x * b == x * sum
  {
  }

  /** How much of a stage lies in the window. */
  function Overlap(stage: Stage, at: real, from: real, to: real): real {
    Max(0.0, Min(to, at + stage.duration) - Max(from, at))
  }

  lemma PieceOfOverlap(stage: Stage, at: real, from: real, to: real)
    ensures Piece(stage, at, from, to) == stage.rate * Overlap(stage, at, from, to)
  {
  }

  lemma OverlapSplits(stage: Stage, at: real, from: real, mid: real, to: real)
    requires from <= mid <= to
    ensures Overlap(stage, at, from, mid) + Overlap(stage, at, mid, to) == Overlap(stage, at, from, to)
  {
  }

  lemma PieceSplits(stage: Stage, at: real, from: real, mid: real, to: real)
    requires from <= mid <= to
    ensures Piece(stage, at, from, mid) + Piece(stage, at, mid, to) == Piece(stage, at, from, to)
  {
    hide Piece, Overlap;
    PieceOfOverlap(stage, at, from, mid);
    PieceOfOverlap(stage, at, mid, to);
    PieceOfOverlap(stage, at, from, to);
    OverlapSplits(stage, at, from, mid, to);
    Adds(stage.rate, Overlap(stage, at, from, mid), Overlap(stage, at, mid, to), Overlap(stage, at, from, to));
  }

  /** The integral adds up over adjacent windows, whatever the stages. */
  lemma {:induction false} IntegralSplits(stages: seq<Stage>, at: real, from: real, mid: real, to: real)
    requires from <= mid <= to
    ensures Integral(stages, at, from, mid) + Integral(stages, at, mid, to) == Integral(stages, at, from, to)
  {
    if stages != [] {
      PieceSplits(stages[0], at, from, mid, to);
      IntegralSplits(stages[1..], at + stages[0].duration, from, mid, to);
    }
  }

  lemma {:induction false} NothingBefore(stages: seq<Stage>, at: real, from: real, to: real)
    requires WellFormed(stages) && to <= at
    ensures Integral(stages, at, from, to) == 0.0
  {
    if stages != [] {
      NothingBefore(stages[1..], at + stages[0].duration, from, to);
    }
  }

  lemma {:induction false} StartsAt(stages: seq<Stage>, at: real, from: real, to: real)
    requires WellFormed(stages) && from <= at
    ensures Integral(stages, at, from, to) == Integral(stages, at, at, to)
  {
    if stages != [] {
      StartsAt(stages[1..], at + stages[0].duration, from, to);
      StartsAt(stages[1..], at + stages[0].duration, at, to);
    }
  }

  lemma {:induction false} IntegralIsNonNegative(stages: seq<Stage>, at: real, from: real, to: real)
    requires WellFormed(stages)
    ensures Integral(stages, at, from, to) >= 0.0
  {
    if stages != [] {
      var lo, hi := Max(from, at), Min(to, at + stages[0].duration);
      if hi > lo {
        ProductIsNonNegative(stages[0].rate, hi - lo);
      }
      IntegralIsNonNegative(stages[1..], at + stages[0].duration, from, to);
    }
  }

  lemma MoreRate(a: real, b: real, span: real)
    requires a <= b && span >= 0.0
    ensures a * span <= b * span
  {
    ProductIsNonNegative(b - a, span);
  }

  lemma PieceAndRestAtLeast(piece: real, rest: real, own: real, rate: real, overlap: real, after: real, whole: real)
    requires piece == own * overlap && rate <= own && overlap >= 0.0
    requires rest >= rate * after && overlap + after == whole
    ensures piece + rest >= rate * whole
  {
    MoreRate(rate, own, overlap);
    Adds(rate, overlap, after, whole);
  }

  lemma PieceAndRestAtMost(piece: real, rest: real, own: real, top: real, overlap: real, after: real, whole: real)
    requires piece == own * overlap && own <= top && overlap >= 0.0
    requires rest <= top * after && overlap + after == whole
    ensures piece + rest <= top * whole
  {
    MoreRate(own, top, overlap);
    Adds(top, overlap, after, whole);
  }

  /** The integral as the first stage's share and the rest. */
  lemma FirstShare(stages: seq<Stage>, at: real, from: real, to: real) returns (share: real, rest: real, overlap: real)
    requires stages != []
    ensures Integral(stages, at, from, to) == share + rest
    ensures rest == Integral(stages[1..], at + stages[0].duration, from, to)
    ensures share == stages[0].rate * overlap && overlap == Overlap(stages[0], at, from, to)
  {
    PieceOfOverlap(stages[0], at, from, to);
    overlap := Overlap(stages[0], at, from, to);
    share, rest := Piece(stages[0], at, from, to), Integral(stages[1..], at + stages[0].duration, from, to);
  }

  lemma AtLeastInside(stages: seq<Stage>, at: real, rate: real, from: real, to: real)
    requires stages != [] && WellFormed(stages) && rate <= stages[0].rate
    requires at <= from <= to <= at + stages[0].duration
    ensures rate * (to - from) <= Integral(stages, at, from, to)
  {
    hide Integral, Piece;
    var share, rest, overlap := FirstShare(stages, at, from, to);
    NothingBefore(stages[1..], at + stages[0].duration, from, to);
    PieceAndRestAtLeast(share, rest, stages[0].rate, rate, overlap, 0.0, to - from);
  }

  lemma AtLeastAcross(stages: seq<Stage>, at: real, rate: real, from: real, to: real)
    requires stages != [] && WellFormed(stages) && rate <= stages[0].rate
    requires at <= from <= at + stages[0].duration <= to
    requires rate * (to - (at + stages[0].duration))
      <= Integral(stages[1..], at + stages[0].duration, at + stages[0].duration, to)
    ensures rate * (to - from) <= Integral(stages, at, from, to)
  {
    hide Integral, Piece;
    var end := at + stages[0].duration;
    var share, rest, overlap := FirstShare(stages, at, from, to);
    StartsAt(stages[1..], end, from, to);
    PieceAndRestAtLeast(share, rest, stages[0].rate, rate, overlap, to - end, to - from);
  }

  lemma AtLeastLater(stages: seq<Stage>, at: real, from: real, to: real)
    requires stages != [] && WellFormed(stages) && at + stages[0].duration <= from <= to
    ensures Integral(stages, at, from, to) == Integral(stages[1..], at + stages[0].duration, from, to)
  {
  }

  /** Between two moments of a plan that never slows down, the plan asks for at least the rate it
      began with. */
  lemma {:induction false} IntegralAtLeast(stages: seq<Stage>, at: real, rate: real, from: real, to: real)
    requires stages != [] && WellFormed(stages) && NonDecreasing(stages)
    requires at <= from <= to <= at + Total(stages) && rate <= RateAt(stages, at, from)
    ensures rate * (to - from) <= Integral(stages, at, from, to)
  {
    hide Integral, Piece;
    var end := at + stages[0].duration;
    var rest := stages[1..];
    if from == to {
      IntegralIsNonNegative(stages, at, from, to);
    } else if from >= end {
      AtLeastLater(stages, at, from, to);
      IntegralAtLeast(rest, end, rate, from, to);
    } else if to <= end {
      AtLeastInside(stages, at, rate, from, to);
    } else {
      RateAtGrows(rest, end, end, end);
      assert rest[0] == stages[1];
      IntegralAtLeast(rest, end, rate, end, to);
      AtLeastAcross(stages, at, rate, from, to);
    }
  }

  lemma AtMostInside(stages: seq<Stage>, at: real, top: real, from: real, to: real)
    requires WellFormed(stages) && top >= 0.0 && from <= to
    requires stages != [] ==> stages[0].rate <= top && to <= at + stages[0].duration
    ensures Integral(stages, at, from, to) <= top * (to - from)
  {
    hide Piece, Overlap;
    if stages == [] {
      ProductIsNonNegative(top, to - from);
    } else {
      hide Integral;
      var share, rest, overlap := FirstShare(stages, at, from, to);
      NothingBefore(stages[1..], at + stages[0].duration, from, to);
      OverlapIsPart(stages[0], at, from, to);
      PartAtMost(share, stages[0].rate, top, overlap, to - from);
    }
  }

  lemma OverlapIsPart(stage: Stage, at: real, from: real, to: real)
    requires from <= to
    ensures 0.0 <= Overlap(stage, at, from, to) <= to - from
  {
  }

  lemma PartAtMost(piece: real, own: real, top: real, overlap: real, whole: real)
    requires piece == own * overlap && own <= top && top >= 0.0 && 0.0 <= overlap <= whole
    ensures piece <= top * whole
  {
    MoreRate(own, top, overlap);
    ProductIsNonNegative(top, whole - overlap);
    Adds(top, overlap, whole - overlap, whole);
  }

  /** Nor does it ask for more than its top rate. */
  lemma {:induction false} IntegralAtMost(stages: seq<Stage>, at: real, top: real, from: real, to: real)
    requires WellFormed(stages) && top >= 0.0 && from <= to
    requires forall i :: 0 <= i < |stages| ==> stages[i].rate <= top
    ensures Integral(stages, at, from, to) <= top * (to - from)
  {
    hide Integral, Piece;
    if stages == [] || to <= at + stages[0].duration {
      AtMostInside(stages, at, top, from, to);
    } else if at + stages[0].duration <= from {
      AtLeastLater(stages, at, from, to);
      IntegralAtMost(stages[1..], at + stages[0].duration, top, from, to);
    } else {
      var end := at + stages[0].duration;
      IntegralAtMost(stages[1..], end, top, end, to);
      AtMostAcross(stages, at, top, from, to);
    }
  }

  lemma AtMostAcross(stages: seq<Stage>, at: real, top: real, from: real, to: real)
    requires stages != [] && WellFormed(stages) && stages[0].rate <= top
    requires from <= at + stages[0].duration <= to
    requires Integral(stages[1..], at + stages[0].duration, at + stages[0].duration, to)
      <= top * (to - (at + stages[0].duration))
    ensures Integral(stages, at, from, to) <= top * (to - from)
  {
    hide Integral, Piece;
    var end := at + stages[0].duration;
    var share, rest, overlap := FirstShare(stages, at, from, to);
    StartsAt(stages[1..], end, from, to);
    var idle := end - from - overlap;
    ProductIsNonNegative(top, idle);
    Adds(top, to - end, idle, to - end + idle);
    PieceAndRestAtMost(share, rest, stages[0].rate, top, overlap, to - end + idle, to - from);
  }

  lemma {:induction false} RateAtGrows(stages: seq<Stage>, at: real, t: real, later: real)
    requires stages != [] && WellFormed(stages) && NonDecreasing(stages) && t <= later
    ensures RateAt(stages, at, t) <= RateAt(stages, at, later)
    ensures stages[0].rate <= RateAt(stages, at, t) <= stages[|stages| - 1].rate
    decreases |stages|
  {
    if |stages| > 1 {
      RateAtGrows(stages[1..], at + stages[0].duration, t, later);
    }
  }

  /** The end of the first stage that ends after t, or of the last stage. */
  function StageEnd(stages: seq<Stage>, at: real, t: real): real
    requires stages != []
  {
    var end := at + stages[0].duration;
    if |stages| == 1 || t < end then end else StageEnd(stages[1..], end, t)
  }

  /** What the first stage and the rest have to do with the stage in force. */
  lemma InForceAt(stages: seq<Stage>, at: real, t: real)
    requires stages != [] && WellFormed(stages) && NonDecreasing(stages)
    ensures var end := at + stages[0].duration;
      && stages[0].rate <= RateAt(stages, at, t) && RateAt(stages, at, t) >= 0.0
      && (|stages| == 1 || t < end ==> StageEnd(stages, at, t) == end)
      && (|stages| > 1 && t >= end ==>
            && RateAt(stages, at, t) == RateAt(stages[1..], end, t)
            && StageEnd(stages, at, t) == StageEnd(stages[1..], end, t))
  {
    RateAtGrows(stages, at, t, t);
  }

  /** Up to the end of the stage in force at t, the plan asks for no more than that stage's rate. */
  lemma {:induction false} IntegralInside(stages: seq<Stage>, at: real, from: real, to: real, t: real)
    requires stages != [] && WellFormed(stages) && NonDecreasing(stages) && from <= to <= StageEnd(stages, at, t)
    ensures Integral(stages, at, from, to) <= RateAt(stages, at, t) * (to - from)
  {
    hide Integral, Piece, RateAt, StageEnd;
    InForceAt(stages, at, t);
    var end := at + stages[0].duration;
    if |stages| == 1 || t < end || to <= end {
      AtMostInside(stages, at, RateAt(stages, at, t), from, to);
    } else if end <= from {
      AtLeastLater(stages, at, from, to);
      IntegralInside(stages[1..], end, from, to, t);
    } else {
      IntegralInside(stages[1..], end, end, to, t);
      AtMostAcross(stages, at, RateAt(stages, at, t), from, to);
    }
  }

  // The plans a run is built from

  lemma {:induction false} TotalOfSame(stages: seq<Stage>, duration: real)
    requires forall i :: 0 <= i < |stages| ==> stages[i].duration == duration
    ensures Total(stages) == |stages| as real * duration
  {
    if stages != [] {
      TotalOfSame(stages[1..], duration);
      assert |stages| as real * duration == (|stages| - 1) as real * duration + duration;
    }
  }

  lemma {:induction false} TotalOfConcat(a: seq<Stage>, b: seq<Stage>)
    ensures Total(a + b) == Total(a) + Total(b)
  {
    if a == [] {
      assert a + b == b;
    } else {
      TotalOfConcat(a[1..], b);
      assert (a + b)[1..] == a[1..] + b;
    }
  }

  lemma RampRates(target: real, warmup: real, steps: int, i: int, j: int)
    requires target > 0.0 && 0 <= i <= j < steps
    ensures 0.0 < RampStage(target, warmup, steps, i).rate
    ensures RampStage(target, warmup, steps, i).rate <= RampStage(target, warmup, steps, j).rate <= target
  {
    var n := steps as real;
    var a, b := target * (i + 1) as real, target * (j + 1) as real;
    ProductIsNonNegative(target, (j - i) as real);
    ProductIsNonNegative(target, (steps - j - 1) as real);
    assert a <= b <= target * n && 0.0 < a;
    assert b / n <= target * n / n == target;
    assert 0.0 < a / n <= b / n;
  }

  /** The staircase climbs evenly from nothing to the target, in steps of one height and one length. */
  lemma RampClimbsEvenly(target: real, warmup: real, steps: int, i: int)
    requires warmup > 0.0 && 0 <= i < steps
    ensures var ramp := RampStages(target, warmup, steps);
      && |ramp| == steps && ramp[steps - 1].rate == target
      && ramp[i].rate == (if i > 0 then ramp[i - 1].rate else 0.0) + target / steps as real
      && ramp[i].duration * steps as real == warmup
  {
    hide RampStage;
    RampStep(target, warmup, steps, i);
    RampStep(target, warmup, steps, steps - 1);
    if i > 0 {
      RampStep(target, warmup, steps, i - 1);
    }
    EvenSteps(target / steps as real, i as real);
  }

  lemma EvenSteps(step: real, k: real)
    ensures step * (k + 1.0) == step * k + step
  {
  }

  lemma RampStep(target: real, warmup: real, steps: int, i: int)
    requires 0 <= i < steps
    ensures RampStage(target, warmup, steps, i).rate == target / steps as real * (i + 1) as real
    ensures i == steps - 1 ==> RampStage(target, warmup, steps, i).rate == target
    ensures RampStage(target, warmup, steps, i).duration * steps as real == warmup
  {
    Quotient(target, (i + 1) as real, steps as real);
  }

  lemma Quotient(x: real, k: real, n: real)
    requires n > 0.0
    ensures x * k / n == x / n * k
  {
    assert x == x / n * n;
    assert x * k == x / n * k * n;
  }

  lemma RampIsFull(target: real, warmup: real, steps: int)
    requires warmup > 0.0 && steps > 0
    ensures var ramp := RampStages(target, warmup, steps);
      && |ramp| == steps && Total(ramp) == warmup
      && (forall i :: 0 <= i < |ramp| ==> ramp[i].duration > 0.0)
  {
    var ramp := RampStages(target, warmup, steps);
    var each := warmup / steps as real;
    assert each > 0.0;
    assert forall i :: 0 <= i < |ramp| ==> ramp[i].duration == each;
    TotalOfSame(ramp, each);
    assert steps as real * each == warmup;
  }

  lemma RampOfARun(target: real, warmup: real, steps: int)
    requires target > 0.0 && warmup > 0.0 && steps > 0
    ensures var ramp := RampStages(target, warmup, steps);
      && WellFormed(ramp) && NonDecreasing(ramp) && Total(ramp) == warmup
      && (forall i :: 0 <= i < |ramp| ==> ramp[i].rate <= target)
  {
    hide RampStage;
    var ramp := RampStages(target, warmup, steps);
    RampIsFull(target, warmup, steps);
    forall i, j | 0 <= i <= j < steps
      ensures 0.0 < ramp[i].rate <= ramp[j].rate <= target
    {
      RampRates(target, warmup, steps, i, j);
    }
  }

  /** The stages of a run never slow down, and they fill the run exactly when there is no warmup or
      the warmup has steps. */
  lemma StagesOfARun(target: real, warmup: real, hold: real, steps: int)
    requires target > 0.0 && warmup >= 0.0 && hold > 0.0 && steps >= 0
    ensures var stages := BuildStages(target, warmup, hold, steps);
      && stages != [] && WellFormed(stages) && NonDecreasing(stages)
      && stages[|stages| - 1].rate == target
      && (Total(stages) == warmup + hold <==> warmup == 0.0 || steps > 0)
      && (Total(stages) == if steps > 0 then warmup + hold else hold)
  {
    var ramp := RampStages(target, warmup, steps);
    var last := [Stage(target, hold)];
    TotalOfConcat(ramp, last);
    assert Total(last) == hold + Total(last[1..]);
    if warmup > 0.0 && steps > 0 {
      RampOfARun(target, warmup, steps);
    }
  }
}
