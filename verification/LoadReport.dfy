/**
 Reporting on a load run: fixed time buckets, the plan's rate over each, percentiles, and the first
 persistent bad window.
 */
module LoadReport {
  import opened Wrappers
  import opened Reals
  import opened Sorting
  import opened Plans
  import opened LoadRun

  datatype Sample = Sample(
    scheduledAt: real,
    dispatchedAt: Option<real>,
    status: Option<nat>,
    serviceMs: Option<real>,
    targetRate: real,
    outcome: Outcome
  )

  predicate IsSent(s: Sample) {
    s.dispatchedAt.Some? && WasSent(s.outcome)
  }

  predicate IsDropped(s: Sample) {
    s.outcome.DroppedBacklog?
  }

  predicate Responded(s: Sample) {
    s.outcome.Completed? && s.status.Some?
  }

  predicate IsShed(s: Sample) {
    Responded(s) && s.status.value == 429
  }

  predicate IsError(s: Sample) {
    IsSent(s) && (!Responded(s) || s.status.value >= 500 || s.status.value == 429)
  }

  /** 0 for no response, otherwise the first digit of the status, kept between 1 and 5. */
  function StatusClass(s: Sample): (c: nat)
    ensures c < 6
  {
    if !Responded(s) then 0
    else
      var hundreds := s.status.value / 100;
      if hundreds < 1 then 1 else if hundreds > 5 then 5 else hundreds
  }

  // Percentiles

  predicate RealLeq(a: real, b: real) { a <= b }

  function Ceiling(x: real): (n: int)
    ensures n as real - 1.0 < x <= n as real
  {
    -((-x).Floor)
  }

  function Rank(n: nat, fraction: real): (r: nat)
    requires n > 0 && 0.0 < fraction <= 1.0
    ensures 1 <= r <= n && (r - 1) as real < n as real * fraction <= r as real
  {
    RankFits(n, fraction);
    var r := Ceiling(n as real * fraction);
    if r < 1 then 1 else r
  }

  lemma RankFits(n: nat, fraction: real)
    requires n > 0 && 0.0 < fraction <= 1.0
    ensures 0.0 < n as real * fraction <= n as real
  {
    ProductIsNonNegative(n as real, 1.0 - fraction);
    assert n as real * fraction > 0.0;
  }

  /** Nearest rank; nothing for no data. */
  function Percentile(values: seq<real>, fraction: real): Option<real>
    requires 0.0 < fraction <= 1.0
  {
    if values == [] then None
    else
      SortSorts(RealLeq, values);
      Some(Sort(RealLeq, values)[Rank(|values|, fraction) - 1])
  }

  function CountOf<T>(s: seq<T>, holds: T -> bool): nat {
    if s == [] then 0 else (if holds(s[0]) then 1 else 0) + CountOf(s[1..], holds)
  }

  lemma {:induction false} CountOfInsert<T>(leq: (T, T) -> bool, x: T, s: seq<T>, holds: T -> bool)
    ensures CountOf(Insert(leq, x, s), holds) == (if holds(x) then 1 else 0) + CountOf(s, holds)
  {
    if s == [] || leq(x, s[0]) {
      assert ([x] + s)[1..] == s;
    } else {
      CountOfInsert(leq, x, s[1..], holds);
      assert Insert(leq, x, s)[1..] == Insert(leq, x, s[1..]);
    }
  }

  lemma {:induction false} CountOfSort<T>(leq: (T, T) -> bool, s: seq<T>, holds: T -> bool)
    ensures CountOf(Sort(leq, s), holds) == CountOf(s, holds)
  {
    if s != [] {
      CountOfSort(leq, s[1..], holds);
      CountOfInsert(leq, s[0], Sort(leq, s[1..]), holds);
    }
  }

  lemma {:induction false} CountOfSplit<T>(a: seq<T>, b: seq<T>, holds: T -> bool)
    ensures CountOf(a + b, holds) == CountOf(a, holds) + CountOf(b, holds)
  {
    if a == [] {
      assert a + b == b;
    } else {
      assert (a + b)[1..] == a[1..] + b;
      CountOfSplit(a[1..], b, holds);
    }
  }

  lemma {:induction false} CountOfAll<T>(s: seq<T>, holds: T -> bool)
    ensures (forall i :: 0 <= i < |s| ==> holds(s[i])) ==> CountOf(s, holds) == |s|
    ensures (forall i :: 0 <= i < |s| ==> !holds(s[i])) ==> CountOf(s, holds) == 0
    ensures CountOf(s, holds) <= |s|
  {
    if s != [] {
      CountOfAll(s[1..], holds);
    }
  }

  function AtMost(v: real): real -> bool {
    (x: real) => x <= v
  }

  function Below(v: real): real -> bool {
    (x: real) => x < v
  }

  lemma RankAtMost(ordered: seq<real>, rank: nat)
    requires Sorted(RealLeq, ordered) && 1 <= rank <= |ordered|
    ensures CountOf(ordered, AtMost(ordered[rank - 1])) >= rank
  {
    hide CountOf;
    var v, first := ordered[rank - 1], ordered[..rank];
    assert ordered == first + ordered[rank..];
    assert forall i :: 0 <= i < rank ==> i == rank - 1 || RealLeq(ordered[i], v);
    CountOfSplit(first, ordered[rank..], AtMost(v));
    CountOfAll(first, AtMost(v));
  }

  lemma NoneBelow(last: seq<real>, v: real)
    requires forall i :: 0 <= i < |last| ==> v <= last[i]
    ensures CountOf(last, Below(v)) == 0
  {
    CountOfAll(last, Below(v));
  }

  lemma RankBelow(ordered: seq<real>, rank: nat)
    requires Sorted(RealLeq, ordered) && 1 <= rank <= |ordered|
    ensures CountOf(ordered, Below(ordered[rank - 1])) < rank
  {
    hide CountOf, Below;
    var v, first, last := ordered[rank - 1], ordered[..rank - 1], ordered[rank - 1..];
    assert ordered == first + last;
    forall i | 0 <= i < |last|
      ensures v <= last[i]
    {
      assert i > 0 ==> RealLeq(v, ordered[rank - 1 + i]);
    }
    CountOfSplit(first, last, Below(v));
    CountOfAll(first, Below(v));
    NoneBelow(last, v);
  }

  /** The percentile is a value that was observed: at least the fraction of all values are at most
      it, and less than the fraction are below it. */
  lemma PercentileIsNearestRank(values: seq<real>, fraction: real, v: real)
    requires values != [] && 0.0 < fraction <= 1.0 && Percentile(values, fraction) == Some(v)
    ensures v in values
    ensures CountOf(values, AtMost(v)) as real >= |values| as real * fraction
    ensures CountOf(values, Below(v)) as real < |values| as real * fraction
  {
    hide Rank, CountOf, Sort, Below, AtMost;
    var ordered := Sort(RealLeq, values);
    SortSorts(RealLeq, values);
    var rank := Rank(|values|, fraction);
    RankAtMost(ordered, rank);
    RankBelow(ordered, rank);
    CountOfSort(RealLeq, values, AtMost(v));
    CountOfSort(RealLeq, values, Below(v));
    assert v in multiset(ordered);
  }

  /** It does not depend on the order of the values, and does not fall as the fraction grows. */
  lemma PercentileIsMonotone(values: seq<real>, other: seq<real>, fraction: real, higher: real)
    requires multiset(values) == multiset(other) && values != [] && 0.0 < fraction <= higher <= 1.0
    ensures other != [] && Percentile(values, fraction) == Percentile(other, fraction)
    ensures Percentile(values, fraction).value <= Percentile(values, higher).value
  {
    hide Rank, Sort;
    assert |values| == |multiset(values)| == |multiset(other)| == |other|;
    SortForgetsOrder(RealLeq, values, other);
    SortSorts(RealLeq, values);
    RanksGrow(|values|, fraction, higher);
    SortedGrows(Sort(RealLeq, values), Rank(|values|, fraction) - 1, Rank(|values|, higher) - 1);
  }

  lemma SortedGrows(ordered: seq<real>, i: nat, j: nat)
    requires Sorted(RealLeq, ordered) && i <= j < |ordered|
    ensures ordered[i] <= ordered[j]
  {
    assert i < j ==> RealLeq(ordered[i], ordered[j]);
  }

  lemma RanksGrow(n: nat, fraction: real, higher: real)
    requires n > 0 && 0.0 < fraction <= higher <= 1.0
    ensures Rank(n, fraction) <= Rank(n, higher)
  {
    hide Rank;
    ProductIsNonNegative(n as real, higher - fraction);
    assert n as real * higher == n as real * fraction + n as real * (higher - fraction);
    assert (Rank(n, fraction) - 1) as real < Rank(n, higher) as real;
  }

  // Buckets

  /** The bucket a moment falls in; moments before the origin count in the first. */
  function Key(origin: real, width: real, t: real): (k: nat)
    requires width > 0.0
  {
    var k := ((t - origin) / width).Floor;
    if k < 0 then 0 else k
  }

  function SentKey(origin: real, width: real, s: Sample): nat
    requires width > 0.0
  {
    match s.dispatchedAt
    case None => 0
    case Some(t) => Key(origin, width, t)
  }

  function Start(origin: real, width: real, k: nat): real {
    origin + k as real * width
  }

  /** A moment at or after the origin lies in its bucket's interval, and in no other. */
  lemma KeyContains(origin: real, width: real, t: real, k: nat)
    requires width > 0.0 && t >= origin
    ensures Key(origin, width, t) == k <==> Start(origin, width, k) <= t < Start(origin, width, k) + width
  {
    var x := (t - origin) / width;
    QuotientLies(x, width, k as real, t - origin, k as real * width);
    FloorIs(x, k);
    assert Key(origin, width, t) == x.Floor;
  }

  lemma FloorIs(x: real, k: int)
    ensures x.Floor == k <==> k as real <= x < k as real + 1.0
    ensures x >= 0.0 ==> x.Floor >= 0
  {
  }

  lemma QuotientLies(x: real, width: real, k: real, span: real, at: real)
    requires width > 0.0 && x == span / width && at == k * width
    ensures at <= span <==> k <= x
    ensures span < at + width <==> x < k + 1.0
    ensures span >= 0.0 ==> x >= 0.0
  {
    var past, left := x - k, k + 1.0 - x;
    assert span == x * width;
    assert span - at == past * width && at + width - span == left * width;
    SignOfProduct(past, width);
    SignOfProduct(left, width);
    SignOfProduct(x, width);
  }

  lemma SignOfProduct(a: real, w: real)
    requires w > 0.0
    ensures a * w >= 0.0 <==> a >= 0.0
    ensures a * w > 0.0 <==> a > 0.0
  {
  }

  /** The sent samples of one bucket, in order. */
  function Members(samples: seq<Sample>, origin: real, width: real, k: nat): seq<Sample>
    requires width > 0.0
  {
    if samples == [] then []
    else
      var rest := Members(samples[..|samples| - 1], origin, width, k);
      var last := samples[|samples| - 1];
      if IsSent(last) && SentKey(origin, width, last) == k then rest + [last] else rest
  }

  function DroppedIn(samples: seq<Sample>, origin: real, width: real, k: nat): nat
    requires width > 0.0
  {
    if samples == [] then 0
    else
      var last := samples[|samples| - 1];
      DroppedIn(samples[..|samples| - 1], origin, width, k)
      + (if IsDropped(last) && Key(origin, width, last.scheduledAt) == k then 1 else 0)
  }

  /** How many buckets it takes to hold every sent and every dropped sample. */
  function KeysEnd(samples: seq<Sample>, origin: real, width: real): nat
    requires width > 0.0
  {
    if samples == [] then 0
    else
      var before := KeysEnd(samples[..|samples| - 1], origin, width);
      var last := samples[|samples| - 1];
      var sent := if IsSent(last) then SentKey(origin, width, last) + 1 else 0;
      var dropped := if IsDropped(last) then Key(origin, width, last.scheduledAt) + 1 else 0;
      MaxNat(before, MaxNat(sent, dropped))
  }

  function MaxNat(a: nat, b: nat): nat { if a >= b then a else b }

  /** And to cover the plan, but for its last sliver. */
  function BucketCount(samples: seq<Sample>, origin: real, width: real, stages: seq<Stage>): nat
    requires width > 0.0
  {
    var n := KeysEnd(samples, origin, width);
    if stages == [] then n
    else
      var planned := Ceiling((Total(stages) - EPSILON) / width);
      if planned > n then planned else n
  }

  const EPSILON := 0.000000001

  function Sum(f: nat -> nat, n: nat): nat {
    if n == 0 then 0 else Sum(f, n - 1) + f(n - 1)
  }

  lemma {:induction false} SumAdds(f: nat -> nat, g: nat -> nat, h: nat -> nat, n: nat)
    requires forall k: nat :: k < n ==> h(k) == f(k) + g(k)
    ensures Sum(h, n) == Sum(f, n) + Sum(g, n)
  {
    if n > 0 {
      SumAdds(f, g, h, n - 1);
    }
  }

  lemma {:induction false} SumOfOne(at: nat, value: nat, f: nat -> nat, n: nat)
    requires forall k: nat :: k < n ==> f(k) == if k == at then value else 0
    ensures Sum(f, n) == if at < n then value else 0
  {
    if n > 0 {
      SumOfOne(at, value, f, n - 1);
    }
  }

  /** What a bucket counts: the members that satisfy a condition. */
  function Tally(samples: seq<Sample>, origin: real, width: real, holds: Sample -> bool): nat -> nat
    requires width > 0.0
  {
    (k: nat) => CountOf(Members(samples, origin, width, k), holds)
  }

  function Dropped(samples: seq<Sample>, origin: real, width: real): nat -> nat
    requires width > 0.0
  {
    (k: nat) => DroppedIn(samples, origin, width, k)
  }

  function SentAnd(holds: Sample -> bool): Sample -> bool {
    (s: Sample) => IsSent(s) && holds(s)
  }

  function Anything(): Sample -> bool {
    (s: Sample) => true
  }

  lemma OneMoreMember(samples: seq<Sample>, origin: real, width: real, k: nat, holds: Sample -> bool)
    requires width > 0.0 && samples != []
    ensures var last := samples[|samples| - 1];
      CountOf(Members(samples, origin, width, k), holds)
        == CountOf(Members(samples[..|samples| - 1], origin, width, k), holds)
           + (if k == SentKey(origin, width, last) && IsSent(last) && holds(last) then 1 else 0)
  {
    hide SentKey;
    var rest := Members(samples[..|samples| - 1], origin, width, k);
    var last := samples[|samples| - 1];
    CountOfSplit(rest, [last], holds);
    CountOfOne(last, holds);
  }

  lemma CountOfOne<T>(x: T, holds: T -> bool)
    ensures CountOf([x], holds) == if holds(x) then 1 else 0
  {
    assert [x][1..] == [];
  }

  lemma CountOfLast<T>(s: seq<T>, holds: T -> bool)
    requires s != []
    ensures CountOf(s, holds) == CountOf(s[..|s| - 1], holds) + (if holds(s[|s| - 1]) then 1 else 0)
  {
    assert s == s[..|s| - 1] + [s[|s| - 1]];
    CountOfSplit(s[..|s| - 1], [s[|s| - 1]], holds);
    CountOfOne(s[|s| - 1], holds);
  }

  /** Whatever is counted of the sent samples, the buckets count all of it, once. */
  lemma {:induction false} BucketsConserve(samples: seq<Sample>, origin: real, width: real, holds: Sample -> bool,
      n: nat)
    requires width > 0.0 && n >= KeysEnd(samples, origin, width)
    ensures Sum(Tally(samples, origin, width, holds), n) == CountOf(samples, SentAnd(holds))
  {
    if samples == [] {
      SumOfOne(0, 0, Tally(samples, origin, width, holds), n);
    } else {
      hide Members, SentKey, Key, IsSent;
      var before, last := samples[..|samples| - 1], samples[|samples| - 1];
      BucketsConserve(before, origin, width, holds, n);
      CountOfLast(samples, SentAnd(holds));
      var at := SentKey(origin, width, last);
      var one: nat -> nat := (k: nat) => if k == at && IsSent(last) && holds(last) then 1 else 0;
      forall k: nat | k < n
        ensures Tally(samples, origin, width, holds)(k) == Tally(before, origin, width, holds)(k) + one(k)
      {
        OneMoreMember(samples, origin, width, k, holds);
      }
      SumAdds(Tally(before, origin, width, holds), one, Tally(samples, origin, width, holds), n);
      SumOfOne(at, if IsSent(last) && holds(last) then 1 else 0, one, n);
    }
  }

  lemma {:induction false} BucketsConserveDropped(samples: seq<Sample>, origin: real, width: real, n: nat)
    requires width > 0.0 && n >= KeysEnd(samples, origin, width)
    ensures Sum(Dropped(samples, origin, width), n) == CountOf(samples, IsDropped)
  {
    if samples == [] {
      SumOfOne(0, 0, Dropped(samples, origin, width), n);
    } else {
      hide Key;
      var before, last := samples[..|samples| - 1], samples[|samples| - 1];
      BucketsConserveDropped(before, origin, width, n);
      CountOfLast(samples, IsDropped);
      var at := Key(origin, width, last.scheduledAt);
      var one: nat -> nat := (k: nat) => if k == at && IsDropped(last) then 1 else 0;
      SumAdds(Dropped(before, origin, width), one, Dropped(samples, origin, width), n);
      SumOfOne(at, if IsDropped(last) then 1 else 0, one, n);
    }
  }

  // The report's time series

  datatype Bucket = Bucket(
    start: real,
    targetedRate: real,
    expected: real,
    count: nat,
    errors: nat,
    shed: nat,
    dropped: nat,
    classes: seq<nat>,
    median: Option<real>,
    hold: bool,
    span: real
  )

  function InClass(c: nat): Sample -> bool {
    (s: Sample) => StatusClass(s) == c
  }

  function ClassCounts(members: seq<Sample>): seq<nat> {
    seq(6, c requires 0 <= c < 6 => CountOf(members, InClass(c)))
  }

  /** The latencies of the responses that have one. */
  function Latencies(samples: seq<Sample>): seq<real> {
    if samples == [] then []
    else
      var first := if Responded(samples[0]) && samples[0].serviceMs.Some? then [samples[0].serviceMs.value] else [];
      first + Latencies(samples[1..])
  }

  function TopRate(samples: seq<Sample>): real
    requires samples != []
  {
    if |samples| == 1 then samples[0].targetRate else Max(samples[0].targetRate, TopRate(samples[1..]))
  }

  /** What a bucket should have carried: the plan's integral over it, or else the highest rate its
      samples were meant for, or else what the bucket before was meant for. */
  function Target(members: seq<Sample>, stages: seq<Stage>, start: real, width: real, before: real): (t: (real, real))
    requires width > 0.0
  {
    if stages != [] then
      var expected := Integral(stages, 0.0, start, start + width);
      (expected / width, expected)
    else
      var rate := if members != [] then TopRate(members) else before;
      (rate, rate * width)
  }

  /** Whether a bucket lies in the hold: all of them do when nobody says where it begins. */
  predicate InHold(holdStart: Option<real>, start: real) {
    holdStart.Some? ==> start >= holdStart.value - EPSILON
  }

  /** Seconds of the plan that a bucket covers. */
  function Span(stages: seq<Stage>, start: real, width: real): real {
    if stages == [] then width else Max(0.0, Min(start + width, Total(stages)) - Max(start, 0.0))
  }

  function BucketOf(samples: seq<Sample>, origin: real, width: real, stages: seq<Stage>, holdStart: Option<real>, k: nat,
      before: real): Bucket
    requires width > 0.0
  {
    var members := Members(samples, origin, width, k);
    var start := Start(origin, width, k);
    var target := Target(members, stages, start, width, before);
    Bucket(start, target.0, target.1, |members|, CountOf(members, IsError), CountOf(members, IsShed),
           DroppedIn(samples, origin, width, k), ClassCounts(members), Percentile(Latencies(members), 0.5),
           InHold(holdStart, start), Span(stages, start, width))
  }

  function TargetBefore(buckets: seq<Bucket>, k: nat): real
    requires k <= |buckets|
  {
    if k == 0 then 0.0 else buckets[k - 1].targetedRate
  }

  ghost predicate IsSeries(buckets: seq<Bucket>, samples: seq<Sample>, origin: real, width: real, stages: seq<Stage>,
      holdStart: Option<real>)
    requires width > 0.0
  {
    forall k :: 0 <= k < |buckets| ==>
      buckets[k] == BucketOf(samples, origin, width, stages, holdStart, k, TargetBefore(buckets, k))
  }

  function IfIn(s: Sample, origin: real, width: real, k: nat): seq<Sample>
    requires width > 0.0
  {
    if IsSent(s) && SentKey(origin, width, s) == k then [s] else []
  }

  lemma MembersGrow(samples: seq<Sample>, i: nat, origin: real, width: real)
    requires width > 0.0 && i < |samples|
    ensures forall k: nat ::
      Members(samples[..i + 1], origin, width, k) == Members(samples[..i], origin, width, k) + IfIn(samples[i], origin, width, k)
  {
    hide SentKey, IsSent;
    assert samples[..i + 1][..i] == samples[..i];
  }

  ghost predicate Grouped(byKey: map<nat, seq<Sample>>, samples: seq<Sample>, origin: real, width: real)
    requires width > 0.0
  {
    forall k: nat :: (if k in byKey then byKey[k] else []) == Members(samples, origin, width, k)
  }

  method GroupSent(samples: seq<Sample>, origin: real, width: real) returns (byKey: map<nat, seq<Sample>>, end: nat)
    requires width > 0.0
    ensures Grouped(byKey, samples, origin, width)
    ensures end <= KeysEnd(samples, origin, width)
    ensures forall i :: 0 <= i < |samples| && IsSent(samples[i]) ==> SentKey(origin, width, samples[i]) < end
  {
    hide SentKey, IsSent, Key, IsDropped;
    byKey, end := map[], 0;
    assert samples[..0] == [] && samples[..|samples|] == samples;
    for i := 0 to |samples|
      invariant Grouped(byKey, samples[..i], origin, width)
      invariant end <= KeysEnd(samples[..i], origin, width)
      invariant forall j :: 0 <= j < i && IsSent(samples[j]) ==> SentKey(origin, width, samples[j]) < end
    {
      assert samples[..i + 1][..i] == samples[..i];
      var s := samples[i];
      if IsSent(s) {
        var k := SentKey(origin, width, s);
        GroupOne(byKey, samples, i, origin, width, k);
        byKey := byKey[k := (if k in byKey then byKey[k] else []) + [s]];
        end := MaxNat(end, k + 1);
      } else {
        MembersGrow(samples, i, origin, width);
      }
    }
  }

  lemma GroupOne(byKey: map<nat, seq<Sample>>, samples: seq<Sample>, i: nat, origin: real, width: real, key: nat)
    requires width > 0.0 && i < |samples| && Grouped(byKey, samples[..i], origin, width)
    requires IsSent(samples[i]) && SentKey(origin, width, samples[i]) == key
    ensures Grouped(byKey[key := (if key in byKey then byKey[key] else []) + [samples[i]]], samples[..i + 1], origin, width)
  {
    hide SentKey, IsSent, Members;
    MembersGrow(samples, i, origin, width);
  }

  method GroupDropped(samples: seq<Sample>, origin: real, width: real) returns (byKey: map<nat, nat>, end: nat)
    requires width > 0.0
    ensures forall k: nat :: (if k in byKey then byKey[k] else 0) == DroppedIn(samples, origin, width, k)
    ensures end <= KeysEnd(samples, origin, width)
    ensures forall i :: 0 <= i < |samples| && IsDropped(samples[i]) ==> Key(origin, width, samples[i].scheduledAt) < end
  {
    byKey, end := map[], 0;
    assert samples[..0] == [] && samples[..|samples|] == samples;
    for i := 0 to |samples|
      invariant forall k: nat :: (if k in byKey then byKey[k] else 0) == DroppedIn(samples[..i], origin, width, k)
      invariant end <= KeysEnd(samples[..i], origin, width)
      invariant forall j :: 0 <= j < i && IsDropped(samples[j]) ==> Key(origin, width, samples[j].scheduledAt) < end
    {
      hide SentKey, Key;
      assert samples[..i + 1][..i] == samples[..i];
      var s := samples[i];
      if IsDropped(s) {
        var k := Key(origin, width, s.scheduledAt);
        byKey := byKey[k := (if k in byKey then byKey[k] else 0) + 1];
        end := MaxNat(end, k + 1);
      }
    }
  }

  lemma {:induction false} KeysEndIs(samples: seq<Sample>, origin: real, width: real, sent: nat, dropped: nat)
    requires width > 0.0
    requires forall i :: 0 <= i < |samples| && IsSent(samples[i]) ==> SentKey(origin, width, samples[i]) < sent
    requires forall i :: 0 <= i < |samples| && IsDropped(samples[i]) ==> Key(origin, width, samples[i].scheduledAt) < dropped
    ensures KeysEnd(samples, origin, width) <= MaxNat(sent, dropped)
  {
    hide SentKey, IsSent, Key, IsDropped;
    if samples != [] {
      KeysEndIs(samples[..|samples| - 1], origin, width, sent, dropped);
    }
  }

  method OnePiece(stage: Stage, at: real, from: real, to: real) returns (piece: real)
    ensures piece == Piece(stage, at, from, to)
  {
    var lo, hi := Max(from, at), Min(to, at + stage.duration);
    piece := if hi > lo then stage.rate * (hi - lo) else 0.0;
  }

  method PlannedIntegral(stages: seq<Stage>, from: real, to: real) returns (total: real)
    ensures total == Integral(stages, 0.0, from, to)
  {
    hide Piece;
    total := 0.0;
    var at := 0.0;
    for i := 0 to |stages|
      invariant total + Integral(stages[i..], at, from, to) == Integral(stages, 0.0, from, to)
    {
      assert stages[i..][1..] == stages[i + 1..];
      var piece := OnePiece(stages[i], at, from, to);
      total := total + piece;
      at := at + stages[i].duration;
    }
  }

  /** The earliest send, or, in a run that sent nothing, the earliest time anything was scheduled for. */
  ghost predicate IsEarliest(samples: seq<Sample>, t: real) {
    if exists s :: s in samples && IsSent(s)
    then (exists s :: s in samples && IsSent(s) && s.dispatchedAt.value == t)
         && forall s :: s in samples && IsSent(s) ==> t <= s.dispatchedAt.value
    else (exists s :: s in samples && s.scheduledAt == t) && forall s :: s in samples ==> t <= s.scheduledAt
  }

  method Earliest(samples: seq<Sample>) returns (t: real)
    requires samples != []
    ensures IsEarliest(samples, t)
  {
    var sent: Option<real> := None;
    t := samples[0].scheduledAt;
    for i := 0 to |samples|
      invariant sent.None? ==> forall j :: 0 <= j < i ==> !IsSent(samples[j])
      invariant sent.Some? ==>
        && (exists j :: 0 <= j < i && IsSent(samples[j]) && samples[j].dispatchedAt.value == sent.value)
        && forall j :: 0 <= j < i && IsSent(samples[j]) ==> sent.value <= samples[j].dispatchedAt.value
      invariant exists j :: 0 <= j < |samples| && samples[j].scheduledAt == t
      invariant forall j :: 0 <= j < i ==> t <= samples[j].scheduledAt
    {
      var s := samples[i];
      if IsSent(s) && (sent.None? || s.dispatchedAt.value < sent.value) {
        sent := s.dispatchedAt;
      }
      if s.scheduledAt < t {
        t := s.scheduledAt;
      }
    }
    if sent.Some? {
      t := sent.value;
    }
  }

  /** Where the buckets begin. */
  ghost predicate BeginsAt(origin: Option<real>, samples: seq<Sample>, from: real) {
    match origin
    case Some(t) => from == t
    case None => IsEarliest(samples, from)
  }

  /** The fixed time buckets of a run: an error for a width that is not positive, none for a run without
      samples and without an origin, and otherwise those from the origin, or the earliest send, on. */
  method Bucketize(samples: seq<Sample>, width: real, origin: Option<real>, stages: seq<Stage>, holdStart: Option<real>)
    returns (r: Option<seq<Bucket>>, ghost from: real)
    ensures r.None? <==> width <= 0.0
    ensures r.Some? && origin.None? && samples == [] ==> r.value == []
    ensures r.Some? && (origin.Some? || samples != []) ==>
      && BeginsAt(origin, samples, from)
      && |r.value| == BucketCount(samples, from, width, stages)
      && IsSeries(r.value, samples, from, width, stages, holdStart)
  {
    from := 0.0;
    if width <= 0.0 {
      return None, from;
    }
    var start;
    match origin {
      case Some(t) => start := t;
      case None =>
        if samples == [] {
          return Some([]), from;
        }
        start := Earliest(samples);
    }
    var buckets := BucketsFrom(samples, width, start, stages, holdStart);
    return Some(buckets), start;
  }

  method BucketsFrom(samples: seq<Sample>, width: real, origin: real, stages: seq<Stage>, holdStart: Option<real>)
    returns (buckets: seq<Bucket>)
    requires width > 0.0
    ensures |buckets| == BucketCount(samples, origin, width, stages)
    ensures IsSeries(buckets, samples, origin, width, stages, holdStart)
  {
    var byKey, sentEnd := GroupSent(samples, origin, width);
    var droppedByKey, droppedEnd := GroupDropped(samples, origin, width);
    KeysEndIs(samples, origin, width, sentEnd, droppedEnd);
    var n := MaxNat(sentEnd, droppedEnd);
    if stages != [] {
      var planned := Ceiling((Total(stages) - EPSILON) / width);
      if planned > n {
        n := planned;
      }
    }
    buckets := [];
    for k := 0 to n
      invariant |buckets| == k && IsSeries(buckets, samples, origin, width, stages, holdStart)
    {
      hide Members, DroppedIn, Percentile, CountOf, Latencies, Target, Span;
      var members := if k in byKey then byKey[k] else [];
      var dropped := if k in droppedByKey then droppedByKey[k] else 0;
      var b := OneBucket(members, dropped, stages, holdStart, Start(origin, width, k), width, TargetBefore(buckets, k));
      assert b == BucketOf(samples, origin, width, stages, holdStart, k, TargetBefore(buckets, k));
      buckets := Extend(buckets, b, samples, origin, width, stages, holdStart);
    }
  }

  method OneBucket(members: seq<Sample>, dropped: nat, stages: seq<Stage>, holdStart: Option<real>, start: real,
      width: real, before: real)
    returns (b: Bucket)
    requires width > 0.0
    ensures var target := Target(members, stages, start, width, before);
      b == Bucket(start, target.0, target.1, |members|, CountOf(members, IsError), CountOf(members, IsShed), dropped,
             ClassCounts(members), Percentile(Latencies(members), 0.5), InHold(holdStart, start),
             Span(stages, start, width))
  {
    var targeted, expected;
    var span := width;
    if stages != [] {
      expected := PlannedIntegral(stages, start, start + width);
      targeted := expected / width;
      span := Max(0.0, Min(start + width, Total(stages)) - Max(start, 0.0));
    } else if members != [] {
      targeted := TopRate(members);
      expected := targeted * width;
    } else {
      targeted := before;
      expected := targeted * width;
    }
    b := Bucket(start, targeted, expected, |members|, CountOf(members, IsError), CountOf(members, IsShed), dropped,
      ClassCounts(members), Percentile(Latencies(members), 0.5), holdStart.None? || start >= holdStart.value - EPSILON,
      span);
  }

  method Extend(buckets: seq<Bucket>, b: Bucket, ghost samples: seq<Sample>, ghost origin: real, ghost width: real,
      ghost stages: seq<Stage>, ghost holdStart: Option<real>)
    returns (more: seq<Bucket>)
    requires width > 0.0 && IsSeries(buckets, samples, origin, width, stages, holdStart)
    requires b == BucketOf(samples, origin, width, stages, holdStart, |buckets|, TargetBefore(buckets, |buckets|))
    ensures more == buckets + [b] && IsSeries(more, samples, origin, width, stages, holdStart)
  {
    hide BucketOf;
    more := buckets + [b];
    assert forall k :: 0 <= k < |buckets| ==> TargetBefore(more, k) == TargetBefore(buckets, k);
  }

  // What the series adds up to

  function TotalOf(buckets: seq<Bucket>, field: Bucket -> nat): nat {
    if buckets == [] then 0 else TotalOf(buckets[..|buckets| - 1], field) + field(buckets[|buckets| - 1])
  }

  function ExpectedOf(buckets: seq<Bucket>): real {
    if buckets == [] then 0.0 else ExpectedOf(buckets[..|buckets| - 1]) + buckets[|buckets| - 1].expected
  }

  lemma {:induction false} TotalIsSum(buckets: seq<Bucket>, field: Bucket -> nat, f: nat -> nat)
    requires forall k: nat :: k < |buckets| ==> field(buckets[k]) == f(k)
    ensures TotalOf(buckets, field) == Sum(f, |buckets|)
  {
    if buckets != [] {
      TotalIsSum(buckets[..|buckets| - 1], field, f);
    }
  }

  lemma CountOfAnything(s: seq<Sample>)
    ensures CountOf(s, Anything()) == |s|
  {
    CountOfAll(s, Anything());
  }

  lemma CountsOfSame(s: seq<Sample>, p: Sample -> bool, q: Sample -> bool)
    requires forall x :: p(x) == q(x)
    ensures CountOf(s, p) == CountOf(s, q)
  {
    if s != [] {
      CountsOfSame(s[1..], p, q);
    }
  }

  /** The columns of the series add up to the run's own totals: sent, errors, shed, dropped, and each
      status class. */
  lemma SeriesConserves(buckets: seq<Bucket>, samples: seq<Sample>, origin: real, width: real, stages: seq<Stage>,
      holdStart: Option<real>, c: nat)
    requires width > 0.0 && IsSeries(buckets, samples, origin, width, stages, holdStart)
    requires |buckets| == BucketCount(samples, origin, width, stages) && c < 6
    ensures TotalOf(buckets, (b: Bucket) => b.count) == CountOf(samples, IsSent)
    ensures TotalOf(buckets, (b: Bucket) => b.errors) == CountOf(samples, IsError)
    ensures TotalOf(buckets, (b: Bucket) => b.shed) == CountOf(samples, SentAnd(IsShed))
    ensures TotalOf(buckets, (b: Bucket) => b.dropped) == CountOf(samples, IsDropped)
    ensures TotalOf(buckets, (b: Bucket) => if c < |b.classes| then b.classes[c] else 0)
      == CountOf(samples, SentAnd(InClass(c)))
  {
    hide Members, DroppedIn, Percentile, CountOf, Latencies, KeysEnd, Target;
    var n := |buckets|;
    forall k: nat
      ensures CountOf(Members(samples, origin, width, k), Anything()) == |Members(samples, origin, width, k)|
    {
      CountOfAnything(Members(samples, origin, width, k));
    }
    BucketsConserve(samples, origin, width, Anything(), n);
    BucketsConserve(samples, origin, width, IsError, n);
    BucketsConserve(samples, origin, width, IsShed, n);
    BucketsConserve(samples, origin, width, InClass(c), n);
    BucketsConserveDropped(samples, origin, width, n);
    TotalIsSum(buckets, (b: Bucket) => b.count, Tally(samples, origin, width, Anything()));
    TotalIsSum(buckets, (b: Bucket) => b.errors, Tally(samples, origin, width, IsError));
    TotalIsSum(buckets, (b: Bucket) => b.shed, Tally(samples, origin, width, IsShed));
    TotalIsSum(buckets, (b: Bucket) => b.dropped, Dropped(samples, origin, width));
    TotalIsSum(buckets, (b: Bucket) => if c < |b.classes| then b.classes[c] else 0,
      Tally(samples, origin, width, InClass(c)));
    CountsOfSame(samples, SentAnd(Anything()), IsSent);
    CountsOfSame(samples, SentAnd(IsError), IsError);
  }

  // What the columns of a bucket say

  /** Sent, and no status came back. */
  ghost predicate NoResponse(s: Sample) {
    s.outcome != Completed || s.status.None?
  }

  /** Class c of 1 to 5 holds the statuses from c hundred on, up to the next; the first also those below it and
      the last those above. */
  ghost predicate StatusIn(s: Sample, c: nat) {
    !NoResponse(s) && (c > 1 ==> 100 * c <= s.status.value) && (c < 5 ==> s.status.value < 100 * (c + 1))
  }

  lemma StatusClassSays(s: Sample, c: nat)
    ensures StatusClass(s) == 0 <==> NoResponse(s)
    ensures 1 <= c <= 5 ==> (StatusClass(s) == c <==> StatusIn(s, c))
  {
  }

  /** An error is one of three things: no response, a status of the last class, or a 429. */
  lemma OneError(s: Sample)
    requires IsSent(s)
    ensures (if IsError(s) then 1 else 0)
      == (if StatusClass(s) == 0 then 1 else 0) + (if StatusClass(s) == 5 then 1 else 0) + (if IsShed(s) then 1 else 0)
    ensures IsShed(s) ==> StatusClass(s) == 4 && s.status == Some(429)
    ensures s.status == Some(429) && StatusClass(s) != 0 ==> IsShed(s)
  {
  }

  lemma {:induction false} ErrorsOf(members: seq<Sample>)
    requires forall i :: 0 <= i < |members| ==> IsSent(members[i])
    ensures CountOf(members, IsError)
      == CountOf(members, InClass(0)) + CountOf(members, InClass(5)) + CountOf(members, IsShed)
    ensures CountOf(members, IsShed) <= CountOf(members, InClass(4))
  {
    if members != [] {
      hide IsSent, IsError, IsShed, StatusClass;
      OneError(members[0]);
      ErrorsOf(members[1..]);
    }
  }

  lemma {:induction false} ClassesOf(members: seq<Sample>)
    ensures |members| == CountOf(members, InClass(0)) + CountOf(members, InClass(1)) + CountOf(members, InClass(2))
      + CountOf(members, InClass(3)) + CountOf(members, InClass(4)) + CountOf(members, InClass(5))
  {
    if members != [] {
      hide StatusClass;
      ClassesOf(members[1..]);
    }
  }

  lemma {:induction false} TopRateIs(members: seq<Sample>)
    requires members != []
    ensures exists s :: s in members && s.targetRate == TopRate(members)
    ensures forall s :: s in members ==> s.targetRate <= TopRate(members)
  {
    if |members| == 1 {
      assert members[0] in members;
    } else {
      TopRateIs(members[1..]);
      assert members[0] in members && forall s :: s in members[1..] ==> s in members;
    }
  }

  /** What a bucket should have carried in a run without a plan: the highest rate that one of its samples was
      meant for, or, when nothing was sent in it, what the bucket before should have. */
  ghost predicate TargetedBySamples(b: Bucket, members: seq<Sample>, width: real, before: real) {
    && b.expected == b.targetedRate * width
    && (if members == [] then b.targetedRate == before
        else
          && (exists s :: s in members && s.targetRate == b.targetedRate)
          && forall s :: s in members ==> s.targetRate <= b.targetedRate)
  }

  /** Every bucket of a series: where it begins, whether it is of the hold, and how its counts hang together. */
  lemma ColumnsSay(buckets: seq<Bucket>, samples: seq<Sample>, origin: real, width: real, stages: seq<Stage>,
      holdStart: Option<real>, k: nat)
    requires width > 0.0 && IsSeries(buckets, samples, origin, width, stages, holdStart) && k < |buckets|
    ensures var b := buckets[k];
      && b.start == origin + k as real * width
      && (b.hold <==> holdStart.None? || b.start >= holdStart.value - EPSILON)
      && |b.classes| == 6
      && b.count == b.classes[0] + b.classes[1] + b.classes[2] + b.classes[3] + b.classes[4] + b.classes[5]
      && b.errors == b.classes[0] + b.classes[5] + b.shed && b.shed <= b.classes[4]
  {
    hide Members, DroppedIn, Percentile, CountOf, Latencies, Span, ClassCounts, IsSent, Target, TargetBefore;
    MembersAreSent(samples, origin, width, k);
    CountsHang(Members(samples, origin, width, k));
  }

  /** A response whose latency is known and satisfies a condition. */
  function Timed(holds: real -> bool): Sample -> bool {
    (s: Sample) => s.outcome.Completed? && s.status.Some? && s.serviceMs.Some? && holds(s.serviceMs.value)
  }

  lemma {:induction false} LatenciesCount(members: seq<Sample>, holds: real -> bool)
    ensures CountOf(Latencies(members), holds) == CountOf(members, Timed(holds))
  {
    if members != [] {
      LatenciesCount(members[1..], holds);
      var first := if Responded(members[0]) && members[0].serviceMs.Some? then [members[0].serviceMs.value] else [];
      CountOfSplit(first, Latencies(members[1..]), holds);
      if first != [] {
        CountOfOne(members[0].serviceMs.value, holds);
      }
    }
  }

  /** The latency a bucket is judged by is the median of the responses whose latency is known: of so many at
      least half are at most it and less than half below it. There is none only when there is no such response. */
  lemma MedianSays(buckets: seq<Bucket>, samples: seq<Sample>, origin: real, width: real, stages: seq<Stage>,
      holdStart: Option<real>, k: nat)
    requires width > 0.0 && IsSeries(buckets, samples, origin, width, stages, holdStart) && k < |buckets|
    ensures var median, members := buckets[k].median, Members(samples, origin, width, k);
      var known := CountOf(members, Timed(x => true));
      && (median.None? <==> known == 0)
      && (median.Some? ==>
            && 2 * CountOf(members, Timed(AtMost(median.value))) >= known
            && 2 * CountOf(members, Timed(Below(median.value))) < known)
  {
    hide Members, DroppedIn, CountOf, Latencies, Span, ClassCounts, Target, TargetBefore, Start, AtMost, Below, Timed;
    var values := Latencies(Members(samples, origin, width, k));
    assert buckets[k].median == Percentile(values, 0.5);
    hide Percentile, IsSeries, BucketOf;
    LatenciesCount(Members(samples, origin, width, k), x => true);
    CountOfAll(values, x => true);
    NoneOrSome(values);
    if values != [] {
      var v := buckets[k].median.value;
      PercentileIsNearestRank(values, 0.5, v);
      LatenciesCount(Members(samples, origin, width, k), AtMost(v));
      LatenciesCount(Members(samples, origin, width, k), Below(v));
    }
  }

  lemma NoneOrSome(values: seq<real>)
    ensures Percentile(values, 0.5).None? <==> values == []
  {
  }

  /** And what it targets in a run without a plan. */
  lemma TargetSays(buckets: seq<Bucket>, samples: seq<Sample>, origin: real, width: real, holdStart: Option<real>, k: nat)
    requires width > 0.0 && IsSeries(buckets, samples, origin, width, [], holdStart) && k < |buckets|
    ensures buckets[k].span == width
    ensures TargetedBySamples(buckets[k], Members(samples, origin, width, k), width,
      if k == 0 then 0.0 else buckets[k - 1].targetedRate)
  {
    hide Members, DroppedIn, Percentile, CountOf, Latencies, ClassCounts, Start, TopRate;
    var members := Members(samples, origin, width, k);
    assert buckets[k] == BucketOf(samples, origin, width, [], holdStart, k, TargetBefore(buckets, k));
    hide IsSeries;
    if members != [] {
      TopRateIs(members);
    }
  }

  lemma MembersAreSent(samples: seq<Sample>, origin: real, width: real, k: nat)
    requires width > 0.0
    ensures forall i :: 0 <= i < |Members(samples, origin, width, k)| ==> IsSent(Members(samples, origin, width, k)[i])
  {
    hide Members, IsSent, SentKey, Start;
    var members := Members(samples, origin, width, k);
    forall i | 0 <= i < |members|
      ensures IsSent(members[i])
    {
      MembersLieInside(samples, origin, width, k, members[i]);
    }
  }

  lemma CountsHang(members: seq<Sample>)
    requires forall i :: 0 <= i < |members| ==> IsSent(members[i])
    ensures var classes := ClassCounts(members);
      && |classes| == 6
      && |members| == classes[0] + classes[1] + classes[2] + classes[3] + classes[4] + classes[5]
      && CountOf(members, IsError) == classes[0] + classes[5] + CountOf(members, IsShed)
      && CountOf(members, IsShed) <= classes[4]
  {
    hide CountOf, IsSent, IsShed, IsError;
    ErrorsOf(members);
    ClassesOf(members);
  }

  lemma NextStart(origin: real, width: real, k: nat)
    ensures Start(origin, width, k + 1) == Start(origin, width, k) + width
  {
    assert (k + 1) as real * width == k as real * width + width;
  }

  lemma StartsRise(origin: real, width: real, k: nat)
    requires width > 0.0
    ensures Start(origin, width, k) >= origin
  {
    ProductIsNonNegative(k as real, width);
  }

  /** With a plan, the expected column adds up to the plan's integral over the whole series, whatever
      the bucket width and the stages. */
  lemma {:induction false} ExpectedIsThePlan(buckets: seq<Bucket>, samples: seq<Sample>, origin: real, width: real,
      stages: seq<Stage>, holdStart: Option<real>)
    requires width > 0.0 && stages != [] && IsSeries(buckets, samples, origin, width, stages, holdStart)
    ensures ExpectedOf(buckets) == Integral(stages, 0.0, origin, Start(origin, width, |buckets|))
  {
    hide Start, Integral, Members, DroppedIn, CountOf, Percentile, Latencies, ClassCounts;
    if buckets == [] {
      EmptyWindow(stages, origin, width);
    } else {
      var n := |buckets| - 1;
      assert forall k :: 0 <= k < n ==> TargetBefore(buckets[..n], k) == TargetBefore(buckets, k);
      ExpectedIsThePlan(buckets[..n], samples, origin, width, stages, holdStart);
      NextStart(origin, width, n);
      StartsRise(origin, width, n);
      IntegralSplits(stages, 0.0, origin, Start(origin, width, n), Start(origin, width, n + 1));
    }
  }

  lemma EmptyWindow(stages: seq<Stage>, origin: real, width: real)
    ensures Integral(stages, 0.0, origin, Start(origin, width, 0)) == 0.0
  {
    IntegralSplits(stages, 0.0, origin, origin, origin);
  }

  lemma {:induction false} NothingAfter(stages: seq<Stage>, at: real, from: real, to: real)
    requires WellFormed(stages) && from >= at + Total(stages)
    ensures Integral(stages, at, from, to) == 0.0
  {
    if stages != [] {
      TotalIsPositive(stages[1..]);
      NothingAfter(stages[1..], at + stages[0].duration, from, to);
    }
  }

  lemma {:induction false} TotalIsPositive(stages: seq<Stage>)
    requires WellFormed(stages)
    ensures Total(stages) >= 0.0
  {
    if stages != [] {
      TotalIsPositive(stages[1..]);
    }
  }

  lemma CountCoversThePlan(samples: seq<Sample>, width: real, stages: seq<Stage>, n: nat)
    requires width > 0.0 && stages != [] && n == BucketCount(samples, 0.0, width, stages)
    ensures Start(0.0, width, n) >= Total(stages) - EPSILON
  {
    hide KeysEnd, Total;
    var planned := Total(stages) - EPSILON;
    QuotientLies(planned / width, width, n as real, planned, n as real * width);
    assert n >= Ceiling(planned / width);
  }

  /** From the run's start on, the expected column is the whole plan, but for at most a nanosecond of
      its top rate. */
  lemma ExpectedCoversThePlan(buckets: seq<Bucket>, samples: seq<Sample>, width: real, stages: seq<Stage>,
      holdStart: Option<real>, top: real)
    requires width > 0.0 && stages != [] && WellFormed(stages) && IsSeries(buckets, samples, 0.0, width, stages, holdStart)
    requires |buckets| == BucketCount(samples, 0.0, width, stages)
    requires top >= 0.0 && forall i :: 0 <= i < |stages| ==> stages[i].rate <= top
    ensures var whole := Integral(stages, 0.0, 0.0, Total(stages));
      whole - top * EPSILON <= ExpectedOf(buckets) <= whole
  {
    hide Integral, IsSeries, BucketCount, Start, ExpectedOf, Total;
    var end, total := Start(0.0, width, |buckets|), Total(stages);
    ExpectedIsThePlan(buckets, samples, 0.0, width, stages, holdStart);
    CountCoversThePlan(samples, width, stages, |buckets|);
    StartsRise(0.0, width, |buckets|);
    TotalIsPositive(stages);
    ProductIsNonNegative(top, EPSILON);
    if end >= total {
      IntegralSplits(stages, 0.0, 0.0, total, end);
      NothingAfter(stages, 0.0, total, end);
    } else {
      IntegralSplits(stages, 0.0, 0.0, end, total);
      IntegralIsNonNegative(stages, 0.0, end, total);
      IntegralAtMost(stages, 0.0, top, end, total);
      ProductIsNonNegative(top, EPSILON - (total - end));
      Adds(top, total - end, EPSILON - (total - end), EPSILON);
    }
  }

  /** The members of a bucket are the samples sent in its interval. */
  lemma {:induction false} MembersLieInside(samples: seq<Sample>, origin: real, width: real, k: nat, s: Sample)
    requires width > 0.0
    ensures s in Members(samples, origin, width, k) <==> s in samples && IsSent(s) && SentKey(origin, width, s) == k
    ensures s in Members(samples, origin, width, k) && s.dispatchedAt.value >= origin ==>
      Start(origin, width, k) <= s.dispatchedAt.value < Start(origin, width, k) + width
  {
    hide Key, Start;
    if samples != [] {
      MembersLieInside(samples[..|samples| - 1], origin, width, k, s);
      assert samples == samples[..|samples| - 1] + [samples[|samples| - 1]];
    }
    if IsSent(s) && s.dispatchedAt.value >= origin {
      KeyContains(origin, width, s.dispatchedAt.value, k);
    }
  }

  // The seconds of the plan that the buckets cover

  function SpanOf(buckets: seq<Bucket>): real {
    if buckets == [] then 0.0 else SpanOf(buckets[..|buckets| - 1]) + buckets[|buckets| - 1].span
  }

  /** How much of the plan lies before t. */
  function PlanBefore(stages: seq<Stage>, t: real): real {
    Max(0.0, Min(t, Total(stages)))
  }

  /** A last bucket that runs past the plan counts only its part of it: the spans add up to the time of
      the plan between the origin and the end of the series. */
  lemma {:induction false} SpansAddUp(buckets: seq<Bucket>, samples: seq<Sample>, origin: real, width: real,
      stages: seq<Stage>, holdStart: Option<real>)
    requires width > 0.0 && stages != [] && Total(stages) >= 0.0
    requires IsSeries(buckets, samples, origin, width, stages, holdStart)
    ensures SpanOf(buckets) == PlanBefore(stages, Start(origin, width, |buckets|)) - PlanBefore(stages, origin)
  {
    hide Start, Members, DroppedIn, CountOf, Percentile, Latencies, ClassCounts, Target, Total;
    if buckets == [] {
      StartOfFirst(origin, width);
    } else {
      var n := |buckets| - 1;
      assert forall k :: 0 <= k < n ==> TargetBefore(buckets[..n], k) == TargetBefore(buckets, k);
      SpansAddUp(buckets[..n], samples, origin, width, stages, holdStart);
      NextStart(origin, width, n);
      SpanIsBetween(stages, Start(origin, width, n), width);
    }
  }

  lemma StartOfFirst(origin: real, width: real)
    ensures Start(origin, width, 0) == origin
  {
  }

  lemma SpanIsBetween(stages: seq<Stage>, start: real, width: real)
    requires width > 0.0 && stages != [] && Total(stages) >= 0.0
    ensures Span(stages, start, width) == PlanBefore(stages, start + width) - PlanBefore(stages, start)
  {
    hide Total;
  }

  // The first persistent bad window

  const KNEE_MIN_EXPECTED := 2.0

  /** What counts as bad: `concurrency` is the closed loop's number of workers. */
  datatype Limits = Limits(errorThreshold: real, latencyFactor: real, divergence: real, persistence: nat,
    concurrency: Option<nat>)

  datatype Trouble = Shedding | FallingBehind | Slowing

  /** The first so many buckets of the hold that have a median, by position. */
  function FirstOfHold(buckets: seq<Bucket>, from: nat, wanted: nat): (at: seq<nat>)
    requires from <= |buckets|
    ensures |at| <= wanted && forall i :: 0 <= i < |at| ==> from <= at[i] < |buckets| && buckets[at[i]].median.Some?
    decreases |buckets| - from
  {
    if wanted == 0 || from == |buckets| then []
    else if buckets[from].hold && buckets[from].median.Some? then [from] + FirstOfHold(buckets, from + 1, wanted - 1)
    else FirstOfHold(buckets, from + 1, wanted)
  }

  function BaselineBuckets(buckets: seq<Bucket>): (at: seq<nat>)
    ensures forall i :: 0 <= i < |at| ==> at[i] < |buckets| && buckets[at[i]].median.Some?
  {
    FirstOfHold(buckets, 0, 2)
  }

  /** The baseline comes from the hold and never from the ramp: it is its earliest buckets with a median, two
      unless there are fewer. */
  lemma BaselineIsTheHolds(buckets: seq<Bucket>)
    ensures var at := BaselineBuckets(buckets);
      && |at| <= 2 && RisesInHold(buckets, at) && (forall i :: 0 <= i < |at| ==> buckets[at[i]].median.Some?)
      && forall k :: 0 <= k < |buckets| && buckets[k].hold && buckets[k].median.Some? && k !in at ==>
           |at| == 2 && at[1] < k
  {
    FirstOfHoldAre(buckets, 0, 2);
    hide FirstOfHold;
    var at := BaselineBuckets(buckets);
    forall k | 0 <= k < |buckets| && buckets[k].hold && buckets[k].median.Some? && k !in at
      ensures |at| == 2 && at[1] < k
    {
      LaterOfHold(buckets, 0, 2, k);
    }
  }

  /** In order, and all of the hold. */
  ghost predicate RisesInHold(buckets: seq<Bucket>, at: seq<nat>) {
    && (forall i :: 0 <= i < |at| ==> at[i] < |buckets| && buckets[at[i]].hold)
    && (forall i, j :: 0 <= i < j < |at| ==> at[i] < at[j])
  }

  lemma {:induction false} FirstOfHoldAre(buckets: seq<Bucket>, from: nat, wanted: nat)
    requires from <= |buckets|
    ensures RisesInHold(buckets, FirstOfHold(buckets, from, wanted))
    decreases |buckets| - from
  {
    if wanted > 0 && from < |buckets| {
      if buckets[from].hold && buckets[from].median.Some? {
        FirstOfHoldAre(buckets, from + 1, wanted - 1);
        OneInFront(buckets, from, FirstOfHold(buckets, from + 1, wanted - 1));
      } else {
        FirstOfHoldAre(buckets, from + 1, wanted);
      }
    }
  }

  lemma OneInFront(buckets: seq<Bucket>, from: nat, rest: seq<nat>)
    requires from < |buckets| && buckets[from].hold && RisesInHold(buckets, rest)
    requires forall i :: 0 <= i < |rest| ==> from < rest[i]
    ensures RisesInHold(buckets, [from] + rest)
  {
  }

  /** A bucket of the hold that is left out comes after as many as were wanted. */
  lemma {:induction false} LaterOfHold(buckets: seq<Bucket>, from: nat, wanted: nat, k: nat)
    requires from <= k < |buckets| && buckets[k].hold && buckets[k].median.Some?
    requires k !in FirstOfHold(buckets, from, wanted)
    ensures |FirstOfHold(buckets, from, wanted)| == wanted
    ensures forall i :: 0 <= i < wanted ==> FirstOfHold(buckets, from, wanted)[i] < k
    decreases |buckets| - from
  {
    if wanted > 0 {
      var taken := buckets[from].hold && buckets[from].median.Some?;
      var at := FirstOfHold(buckets, from, wanted);
      var rest := FirstOfHold(buckets, from + 1, if taken then wanted - 1 else wanted);
      assert at == if taken then [from] + rest else rest;
      assert taken ==> from in at;
      LaterOfHold(buckets, from + 1, if taken then wanted - 1 else wanted, k);
    }
  }

  /** Their median latency, averaged. */
  function Baseline(buckets: seq<Bucket>): Option<real> {
    var at := BaselineBuckets(buckets);
    if at == [] then None
    else if |at| == 1 then Some(buckets[at[0]].median.value)
    else Some((buckets[at[0]].median.value + buckets[at[1]].median.value) / 2.0)
  }

  /** The most the workers of a closed loop can send per second when each waits for its response. */
  function ClientCeiling(b: Bucket, concurrency: Option<nat>): Option<real> {
    if concurrency.None? || concurrency.value == 0 || b.median.None? || b.median.value <= 0.0 then None
    else Some(concurrency.value as real * 1000.0 / b.median.value)
  }

  /** The shortfall is the client's: the plan asked for more than the workers could offer in the planned
      part of the bucket, and they offered about what they could. */
  predicate ClientLimited(b: Bucket, limits: Limits) {
    match ClientCeiling(b, limits.concurrency)
    case None => false
    case Some(ceiling) =>
      b.span != 0.0 && ceiling * b.span < b.expected && b.count as real >= ceiling * b.span * (1.0 - limits.divergence)
  }

  predicate IsShedding(b: Bucket, limits: Limits) {
    b.count > 0 && b.errors as real / b.count as real >= limits.errorThreshold
  }

  predicate FallsBehind(b: Bucket, limits: Limits) {
    && b.expected >= KNEE_MIN_EXPECTED && (b.count as real) < b.expected * (1.0 - limits.divergence)
    && !ClientLimited(b, limits)
  }

  predicate IsSlowing(buckets: seq<Bucket>, k: nat, limits: Limits)
    requires k < |buckets|
  {
    var baseline := Baseline(buckets);
    && baseline.Some? && baseline.value != 0.0 && k !in BaselineBuckets(buckets)
    && buckets[k].median.Some? && buckets[k].median.value > baseline.value * limits.latencyFactor
  }

  predicate IsBad(buckets: seq<Bucket>, k: nat, limits: Limits)
    requires k < |buckets|
  {
    IsShedding(buckets[k], limits) || FallsBehind(buckets[k], limits) || IsSlowing(buckets, k, limits)
  }

  /** Why: the first reason counts. */
  function TroubleOf(buckets: seq<Bucket>, k: nat, limits: Limits): Trouble
    requires k < |buckets|
  {
    if IsShedding(buckets[k], limits) then Shedding
    else if FallsBehind(buckets[k], limits) then FallingBehind
    else Slowing
  }

  // What the verdicts mean

  /** At least the threshold's share of what was sent failed. */
  ghost predicate Sheds(b: Bucket, limits: Limits) {
    b.count > 0 && b.errors as real >= limits.errorThreshold * b.count as real
  }

  /** So many workers, each waiting for its response, could not have sent what was planned, and sent about what
      they could. */
  ghost predicate Excused(b: Bucket, limits: Limits) {
    && limits.concurrency.Some? && limits.concurrency.value > 0 && b.median.Some? && b.median.value > 0.0 && b.span != 0.0
    && var capacity := limits.concurrency.value as real * 1000.0 / b.median.value * b.span;
       capacity < b.expected && b.count as real >= capacity * (1.0 - limits.divergence)
  }

  ghost predicate Lags(b: Bucket, limits: Limits) {
    b.expected >= 2.0 && (b.count as real) < b.expected * (1.0 - limits.divergence) && !Excused(b, limits)
  }

  /** Slower than the hold began: its first two medians on average, or the only one. */
  ghost predicate Slows(buckets: seq<Bucket>, k: nat, limits: Limits)
    requires k < |buckets|
  {
    var at, median := BaselineBuckets(buckets), buckets[k].median;
    && at != [] && k !in at && median.Some?
    && var first := buckets[at[0]].median.value;
       if |at| == 1 then first != 0.0 && median.value > first * limits.latencyFactor
       else
         var both := first + buckets[at[1]].median.value;
         both != 0.0 && 2.0 * median.value > both * limits.latencyFactor
  }

  /** When a bucket is bad, and what for. */
  lemma TroubleSays(buckets: seq<Bucket>, k: nat, limits: Limits)
    requires k < |buckets|
    ensures IsBad(buckets, k, limits) <==>
      Sheds(buckets[k], limits) || Lags(buckets[k], limits) || Slows(buckets, k, limits)
    ensures IsBad(buckets, k, limits) ==>
      TroubleOf(buckets, k, limits) ==
        if Sheds(buckets[k], limits) then Shedding else if Lags(buckets[k], limits) then FallingBehind else Slowing
  {
    ShedsIff(buckets[k], limits);
    assert Lags(buckets[k], limits) <==> FallsBehind(buckets[k], limits);
    SlowsIff(buckets, k, limits);
  }

  lemma ShedsIff(b: Bucket, limits: Limits)
    ensures Sheds(b, limits) <==> IsShedding(b, limits)
  {
    if b.count > 0 {
      var rate := b.errors as real / b.count as real;
      assert rate * b.count as real == b.errors as real;
      if rate >= limits.errorThreshold {
        ProductIsNonNegative(rate - limits.errorThreshold, b.count as real);
      } else {
        assert (limits.errorThreshold - rate) * b.count as real > 0.0;
      }
    }
  }

  lemma SlowsIff(buckets: seq<Bucket>, k: nat, limits: Limits)
    requires k < |buckets|
    ensures Slows(buckets, k, limits) <==> IsSlowing(buckets, k, limits)
  {
    hide BaselineBuckets;
    var at := BaselineBuckets(buckets);
    if |at| >= 2 {
      var both := buckets[at[0]].median.value + buckets[at[1]].median.value;
      assert both / 2.0 * limits.latencyFactor == both * limits.latencyFactor / 2.0;
    }
  }

  /** The verdict on one bucket. */
  method Judge(buckets: seq<Bucket>, k: nat, limits: Limits) returns (verdict: Option<Trouble>)
    requires k < |buckets|
    ensures verdict == if IsBad(buckets, k, limits) then Some(TroubleOf(buckets, k, limits)) else None
  {
    var b := buckets[k];
    if b.count > 0 && b.errors as real / b.count as real >= limits.errorThreshold {
      return Some(Shedding);
    }
    var short := b.expected >= KNEE_MIN_EXPECTED && (b.count as real) < b.expected * (1.0 - limits.divergence);
    if short && !ClientLimited(b, limits) {
      return Some(FallingBehind);
    }
    if IsSlowing(buckets, k, limits) {
      return Some(Slowing);
    }
    return None;
  }

  ghost predicate BadFrom(buckets: seq<Bucket>, limits: Limits, i: nat) {
    && i + limits.persistence <= |buckets|
    && forall k :: i <= k < i + limits.persistence ==> IsBad(buckets, k, limits)
  }

  /** The first bucket that starts `persistence` bad ones in a row, with its reason, and nothing exactly
      when no bucket does. */
  method FindKnee(buckets: seq<Bucket>, limits: Limits) returns (knee: Option<(nat, Trouble)>)
    requires limits.persistence >= 1
    ensures knee.Some? <==> exists i :: BadFrom(buckets, limits, i)
    ensures knee.Some? ==>
      && BadFrom(buckets, limits, knee.value.0)
      && (forall i :: 0 <= i < knee.value.0 ==> !BadFrom(buckets, limits, i))
      && knee.value.1 == TroubleOf(buckets, knee.value.0, limits)
  {
    hide IsBad, TroubleOf;
    var verdicts: seq<Option<Trouble>> := [];
    for k := 0 to |buckets|
      invariant |verdicts| == k
      invariant forall j :: 0 <= j < k ==>
        verdicts[j] == if IsBad(buckets, j, limits) then Some(TroubleOf(buckets, j, limits)) else None
    {
      var verdict := Judge(buckets, k, limits);
      verdicts := verdicts + [verdict];
    }
    knee := None;
    var i := 0;
    while i + limits.persistence <= |buckets|
      invariant forall j :: 0 <= j < i ==> !BadFrom(buckets, limits, j)
    {
      var window := verdicts[i..i + limits.persistence];
      var all := true;
      for k := 0 to |window|
        invariant all <==> forall j :: 0 <= j < k ==> window[j].Some?
      {
        all := all && window[k].Some?;
      }
      assert forall j :: i <= j < i + limits.persistence ==> verdicts[j] == window[j - i];
      assert all <==> BadFrom(buckets, limits, i);
      if all {
        return Some((i, window[0].value));
      }
      i := i + 1;
    }
  }

  /** A closed loop that sends what its workers can is not falling behind, however much more was planned. */
  lemma BusyWorkersDoNotFallBehind(b: Bucket, limits: Limits)
    requires limits.concurrency.Some? && limits.concurrency.value > 0 && 0.0 <= limits.divergence <= 1.0
    requires b.median.Some? && b.median.value > 0.0 && b.span > 0.0
    requires b.count as real >= ClientCeiling(b, limits.concurrency).value * b.span
    ensures !FallsBehind(b, limits)
  {
    var capacity := ClientCeiling(b, limits.concurrency).value * b.span;
    assert capacity >= 0.0;
    ProductIsNonNegative(capacity, limits.divergence);
    if capacity >= b.expected {
      ProductIsNonNegative(b.count as real, limits.divergence);
      LessOfLess(b.expected, b.count as real, 1.0 - limits.divergence);
    }
  }

  lemma LessOfLess(expected: real, count: real, share: real)
    requires expected <= count && 0.0 <= share <= 1.0 && count >= 0.0
    ensures expected * share <= count
  {
    ProductIsNonNegative(count - expected, share);
    ProductIsNonNegative(count, 1.0 - share);
  }
}
