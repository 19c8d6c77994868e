/** The reference MetricsQL counter functions: increase, delta, rate, irate and idelta over
    the points of one step's matrix, and the sample interval estimate they depend on. */
module Counter {
  import opened Options
  import opened Samples

  datatype Function = Increase | Delta | Rate | Irate | Idelta

  // increase and delta sum the whole window; increase, rate and irate remove resets.
  predicate WindowTotal(fn: Function) { fn.Increase? || fn.Delta? }
  predicate IsRate(fn: Function) { fn.Rate? || fn.Irate? }
  predicate RemovesResets(fn: Function) { fn.Increase? || IsRate(fn) }

  // ---------------------------------------------------------------- counter steps

  /** What one sample adds to a counter: its rise, nothing on a small drop (a partial reset),
      and its whole value on a large one (a full reset). */
  function Step(prev: real, v: real): (r: real)
    ensures prev <= v ==> r == v - prev
    ensures v < prev && (prev - v) * 8.0 < prev ==> r == 0.0
  {
    if v >= prev then v - prev else if (prev - v) * 8.0 < prev then 0.0 else v
  }

  /** The correction the reference loop adds when a sample is below its predecessor. */
  function Drop(prev: real, v: real): real {
    if v < prev then (if (prev - v) * 8.0 < prev then prev - v else prev) else 0.0
  }

  function PreviousValue(points: seq<Point>, base: real, begin: nat, i: nat): real
    requires begin <= i < |points|
  {
    if i == begin then base else points[i - 1].v
  }

  /** Sum of the steps of points[begin..k], the first one taken from base. */
  function Rise(points: seq<Point>, base: real, begin: nat, k: nat): real
    requires k <= |points|
    decreases k
  {
    if k <= begin then 0.0
    else Rise(points, base, begin, k - 1) + Step(PreviousValue(points, base, begin, k - 1), points[k - 1].v)
  }

  function Drops(points: seq<Point>, base: real, begin: nat, k: nat): real
    requires k <= |points|
    decreases k
  {
    if k <= begin then 0.0
    else Drops(points, base, begin, k - 1) + Drop(PreviousValue(points, base, begin, k - 1), points[k - 1].v)
  }

  /** Telescoping: last value minus base plus the corrections is the sum of the steps. */
  lemma {:induction false} RiseTelescopes(points: seq<Point>, base: real, begin: nat, k: nat)
    requires begin < k <= |points|
    ensures Rise(points, base, begin, k) == points[k - 1].v - base + Drops(points, base, begin, k)
  {
    if begin < k - 1 {
      RiseTelescopes(points, base, begin, k - 1);
    } else {
      assert Rise(points, base, begin, k - 1) == 0.0;
    }
  }

  /** A counter that never goes negative never shrinks. */
  lemma {:induction false} RiseIsNonNegative(points: seq<Point>, base: real, begin: nat, k: nat)
    requires begin <= k <= |points| && base >= 0.0
    requires forall i :: begin <= i < k ==> points[i].v >= 0.0
    ensures Rise(points, base, begin, k) >= 0.0
  {
    if begin < k {
      RiseIsNonNegative(points, base, begin, k - 1);
    }
  }

  /** Steps of a sub-range of the points are steps of the points. */
  lemma {:induction false} RiseInSlice(points: seq<Point>, m: nat, n: nat, base: real, begin: nat, k: nat)
    requires m <= n <= |points| && begin <= k <= n - m
    ensures Rise(points[m..n], base, begin, k) == Rise(points, base, m + begin, m + k)
  {
    if begin < k {
      RiseInSlice(points, m, n, base, begin, k - 1);
    }
  }

  /** From the last but one point on, the rise is the last step alone. */
  lemma LastStepOnly(points: seq<Point>)
    requires |points| >= 2
    ensures var n := |points|;
      Rise(points, points[n - 2].v, n - 2, n) == Step(points[n - 2].v, points[n - 1].v)
  {
    var n := |points|;
    assert Rise(points, points[n - 2].v, n - 2, n - 1) == 0.0;
  }

  // ---------------------------------------------------------------- one window

  /** A previous sample counts when it is recent enough; increase and delta also take one
      less than the lookback before the first sample of the window. */
  predicate HasPrevious(fn: Function, points: seq<Point>, first: nat, start: int, maxPrev: int, lookback: int)
    requires first < |points|
  {
    first > 0 &&
    (points[first - 1].t > start - maxPrev
     || (WindowTotal(fn) && points[first].t - points[first - 1].t < lookback))
  }

  /** Without a previous sample a small first value is read as a counter born at zero. */
  function BirthBase(points: seq<Point>, first: nat): real
    requires first < |points|
  {
    var delta := if first + 1 < |points| then points[first + 1].v - points[first].v else 0.0;
    if Abs(points[first].v) < 10.0 * (Abs(delta) + 1.0) then 0.0 else points[first].v
  }

  function Seconds(points: seq<Point>, begin: nat): real
    requires begin < |points|
  {
    (points[|points| - 1].t - points[begin].t) as real / 1000.0
  }

  /** The meaning of a counter function: None where the engine shows no point. Counters are
      sums of steps; irate and idelta compare the last two points only. */
  function Value(fn: Function, points: seq<Point>, first: nat, start: int, maxPrev: int, lookback: int): Option<real>
    requires first <= |points|
  {
    if first == |points| then None
    else
      var hasPrev := HasPrevious(fn, points, first, start, maxPrev, lookback);
      var begin: nat := if hasPrev then first - 1 else first;
      var n := |points|;
      match fn
      case Increase =>
        Some(Rise(points, if hasPrev then points[begin].v else BirthBase(points, first), begin, n))
      case Delta =>
        Some(points[n - 1].v - (if hasPrev then points[begin].v else BirthBase(points, first)))
      case Rate =>
        if n - begin < 2 || Seconds(points, begin) <= 0.0 then None
        else Some(Rise(points, points[begin].v, begin, n) / Seconds(points, begin))
      case Irate =>
        if n - begin < 2 || Seconds(points, n - 2) <= 0.0 then None
        else Some(Step(points[n - 2].v, points[n - 1].v) / Seconds(points, n - 2))
      case Idelta =>
        if n - begin < 2 then Some(points[n - 1].v) else Some(points[n - 1].v - points[n - 2].v)
  }

  /** The reset pass of metricsQLCounterValue. */
  method AddDrops(points: seq<Point>, begin: nat, baseline: real, start: real) returns (value: real)
    requires begin < |points| && start == points[|points| - 1].v - baseline
    ensures value == Rise(points, baseline, begin, |points|)
  {
    value := start;
    var previous := baseline;
    for i := begin to |points|
      invariant previous == if i == begin then baseline else points[i - 1].v
      invariant value == start + Drops(points, baseline, begin, i)
    {
      if points[i].v < previous {
        if (previous - points[i].v) * 8.0 < previous {
          value := value + (previous - points[i].v);
        } else {
          value := value + previous;
        }
      }
      previous := points[i].v;
    }
    RiseTelescopes(points, baseline, begin, |points|);
  }

  /** metricsQLCounterValue, statement by statement: one pass that corrects last-minus-base
      for every drop, proved to be the sum of steps above. */
  method CounterValue(fn: Function, points: seq<Point>, first: nat, start: int, maxPrev: int, lookback: int)
    returns (r: Option<real>)
    requires first <= |points|
    ensures r == Value(fn, points, first, start, maxPrev, lookback)
  {
    hide Rise, Step, Abs;
    var prev := first - 1;
    var havePrev := prev >= 0 && points[prev].t > start - maxPrev;
    if first == |points| {
      return None;
    }
    if !havePrev && (fn.Increase? || fn.Delta?) && prev >= 0 && points[first].t - points[prev].t < lookback {
      havePrev := true;
    }
    var begin := first;
    var baseline := points[first].v;
    if havePrev {
      begin := prev;
      baseline := points[prev].v;
    } else if !IsRate(fn) {
      var delta := 0.0;
      if first + 1 < |points| {
        delta := points[first + 1].v - points[first].v;
      }
      if Abs(baseline) < 10.0 * (Abs(delta) + 1.0) {
        baseline := 0.0;
      }
    }
    if fn.Irate? || fn.Idelta? {
      begin := Max(begin, |points| - 2);
      baseline := points[begin].v;
      if fn.Idelta? && |points| - begin == 1 {
        baseline := 0.0;
      }
    }
    if IsRate(fn) && |points| - begin < 2 {
      return None;
    }
    var value := points[|points| - 1].v - baseline;
    if fn.Increase? || IsRate(fn) {
      value := AddDrops(points, begin, baseline, value);
      if fn.Irate? {
        LastStepOnly(points);
      }
    }
    if IsRate(fn) {
      var seconds := (points[|points| - 1].t - points[begin].t) as real / 1000.0;
      if seconds <= 0.0 {
        return None;
      }
      return Some(value / seconds);
    }
    return Some(value);
  }

  // ---------------------------------------------------------------- sums of contributions

  function Sum(s: seq<real>): real {
    if s == [] then 0.0 else Sum(s[..|s| - 1]) + s[|s| - 1]
  }

  function Difference(fn: Function, prev: real, v: real): real {
    if RemovesResets(fn) then Step(prev, v) else v - prev
  }

  /** The reference total over points[begin..k], with or without reset removal. */
  function Total(fn: Function, points: seq<Point>, base: real, begin: nat, k: nat): real
    requires begin < k <= |points|
  {
    if RemovesResets(fn) then Rise(points, base, begin, k) else points[k - 1].v - base
  }

  /** A first difference and then neighbour differences add up to the total: this is what
      lets a plan sum one contribution per sample. */
  lemma {:induction false} TotalIsSumOfDifferences(fn: Function, points: seq<Point>, s: seq<real>, base: real,
                                                   begin: nat, a: nat, k: nat)
    requires begin <= a < k <= |points| && |s| == k - a
    requires s[0] == Total(fn, points, base, begin, a + 1)
    requires forall j :: 1 <= j < |s| ==> s[j] == Difference(fn, points[a + j - 1].v, points[a + j].v)
    ensures Sum(s) == Total(fn, points, base, begin, k)
  {
    if k == a + 1 {
      assert Sum(s[..0]) == 0.0;
    } else {
      TotalIsSumOfDifferences(fn, points, s[..|s| - 1], base, begin, a, k - 1);
    }
  }

  // ---------------------------------------------------------------- sample interval

  /** intervals[k] is the gap that ends at points[from + k]. */
  function Intervals(points: seq<Point>, from: nat): (r: seq<int>)
    requires 1 <= from <= |points|
    ensures |r| == |points| - from
  {
    seq(|points| - from, k requires 0 <= k < |points| - from => points[from + k].t - points[from + k - 1].t)
  }

  function Insert(x: int, s: seq<int>): (r: seq<int>)
    ensures |r| == |s| + 1
  {
    if s == [] || x <= s[0] then [x] + s else [s[0]] + Insert(x, s[1..])
  }

  function SortInts(s: seq<int>): (r: seq<int>)
    ensures |r| == |s|
  {
    if s == [] then [] else Insert(s[0], SortInts(s[1..]))
  }

  ghost predicate Ascending(s: seq<int>) { forall i, j :: 0 <= i < j < |s| ==> s[i] <= s[j] }

  lemma {:induction false} InsertKeeps(x: int, s: seq<int>)
    ensures multiset(Insert(x, s)) == multiset(s) + multiset{x}
  {
    if s != [] && x > s[0] {
      InsertKeeps(x, s[1..]);
      assert s == [s[0]] + s[1..];
    }
  }

  lemma {:induction false} InsertSorts(x: int, s: seq<int>)
    requires Ascending(s)
    ensures Ascending(Insert(x, s))
    ensures forall i :: 0 <= i < |Insert(x, s)| ==> Insert(x, s)[i] == x || Insert(x, s)[i] in s
  {
    if s != [] && x > s[0] {
      var rest := s[1..];
      InsertSorts(x, rest);
      var r := Insert(x, rest);
      forall j | 0 <= j < |r| ensures s[0] <= r[j] && (r[j] == x || r[j] in s) {
        if r[j] != x {
          var i :| 0 <= i < |rest| && rest[i] == r[j];
          assert s[i + 1] == r[j];
        }
      }
    }
  }

  /** The sort used for the gaps: ascending, and the same gaps. */
  lemma {:induction false} SortIntsSorts(s: seq<int>)
    ensures Ascending(SortInts(s)) && multiset(SortInts(s)) == multiset(s)
  {
    if s != [] {
      SortIntsSorts(s[1..]);
      InsertKeeps(s[0], SortInts(s[1..]));
      InsertSorts(s[0], SortInts(s[1..]));
      assert s == [s[0]] + s[1..];
    }
  }

  /** The margin table for timestamp variation. */
  function Margin(interval: int): int {
    if interval <= 2000 then interval * 5
    else if interval <= 4000 then interval * 3
    else if interval <= 8000 then interval * 2
    else if interval <= 16000 then interval + interval / 2
    else if interval <= 32000 then interval + interval / 4
    else interval + interval / 8
  }

  /** Go converts a float to an integer by truncation. */
  function Trunc(x: real): int {
    if x >= 0.0 then x.Floor else -((-x).Floor)
  }

  /** A whole number of milliseconds between two intervals. */
  function Interpolate(lo: int, hi: int, fraction: real): int {
    lo + Trunc((hi - lo) as real * fraction)
  }

  /** The 0.6 quantile of sorted intervals, interpolated in whole milliseconds. */
  function Quantile06(sorted: seq<int>): int
    requires |sorted| > 0
  {
    var position := 0.6 * (|sorted| - 1) as real;
    var index := position.Floor;
    if index + 1 < |sorted| then
      Interpolate(sorted[index], sorted[index + 1], position - index as real)
    else sorted[index]
  }

  /** metricsQLSampleInterval: the last 20 gaps decide. */
  function SampleInterval(points: seq<Point>, fallback: int): int {
    if |points| < 2 then fallback
    else
      var interval := Quantile06(SortInts(Intervals(points, Max(1, |points| - 20))));
      if interval <= 0 then fallback else Margin(interval)
  }

  lemma IntervalsAre(points: seq<Point>, from: nat, intervals: seq<int>)
    requires 1 <= from <= |points| && |intervals| == |points| - from
    requires forall k :: 0 <= k < |intervals| ==> intervals[k] == points[from + k].t - points[from + k - 1].t
    ensures intervals == Intervals(points, from)
  {
  }

  lemma QuantileSteps(sorted: seq<int>, position: real, index: int, fraction: real)
    requires |sorted| > 0 && position == 0.6 * (|sorted| - 1) as real
    requires index == Trunc(position) && fraction == position - index as real
    ensures 0 <= index < |sorted|
    ensures Quantile06(sorted) ==
            if index + 1 < |sorted| then Interpolate(sorted[index], sorted[index + 1], fraction) else sorted[index]
  {
    hide Trunc, Interpolate;
    TruncIsFloor(position);
    assert index as real <= position <= (|sorted| - 1) as real;
  }

  lemma InterpolateBy(lo: int, hi: int, fraction: real, exact: real)
    requires exact == (hi - lo) as real * fraction
    ensures Interpolate(lo, hi, fraction) == lo + Trunc(exact)
  {
  }

  lemma TruncIsFloor(x: real)
    requires x >= 0.0
    ensures Trunc(x) == x.Floor >= 0
  {
  }

  /** The loop of metricsQLSampleInterval over its fixed buffer of gaps. */
  method EstimateInterval(points: seq<Point>, fallback: int) returns (r: int)
    ensures r == SampleInterval(points, fallback)
  {
    hide SortInts, Intervals, Quantile06, Interpolate, Trunc;
    if |points| < 2 {
      return fallback;
    }
    var intervals: seq<int> := [];
    var from := Max(1, |points| - 20);
    for i := from to |points|
      invariant |intervals| == i - from
      invariant forall k :: 0 <= k < |intervals| ==> intervals[k] == points[from + k].t - points[from + k - 1].t
    {
      intervals := intervals + [points[i].t - points[i - 1].t];
    }
    IntervalsAre(points, from, intervals);
    intervals := SortInts(intervals);
    var position := 0.6 * (|intervals| - 1) as real;
    var index := Trunc(position);
    var fraction := position - index as real;
    QuantileSteps(intervals, position, index, fraction);
    var interval := intervals[index];
    if index + 1 < |intervals| {
      var exact := (intervals[index + 1] - interval) as real * fraction;
      InterpolateBy(interval, intervals[index + 1], fraction, exact);
      interval := interval + Trunc(exact);
    }
    assert interval == Quantile06(intervals);
    if interval <= 0 {
      return fallback;
    }
    if interval <= 2000 {
      return interval * 5;
    } else if interval <= 4000 {
      return interval * 3;
    } else if interval <= 8000 {
      return interval * 2;
    } else if interval <= 16000 {
      return interval + interval / 2;
    } else if interval <= 32000 {
      return interval + interval / 4;
    } else {
      return interval + interval / 8;
    }
  }

  /** Between ascending neighbours the interpolation is the floor of the exact point. */
  lemma InterpolateIs(lo: int, hi: int, fraction: real)
    requires lo <= hi && fraction >= 0.0
    ensures Interpolate(lo, hi, fraction) == (lo as real + (hi - lo) as real * fraction).Floor
  {
    var x := (hi - lo) as real * fraction;
    assert x >= 0.0;
    assert x.Floor as real <= x < x.Floor as real + 1.0;
  }

  /** 2000, 4000, 8000, 16000 and 32000: where the bands of the margin table end. */
  function BandTop(k: nat): int {
    if k == 0 then 2000 else 2 * BandTop(k - 1)
  }

  /** In each band the margin grows in proportion to the interval and reaches 8000 at the end of
      the band; above the last band it is an eighth of the interval. */
  lemma MarginLaw(interval: int, k: nat)
    requires k <= 5 && interval > 0
    requires k > 0 ==> interval > BandTop(k - 1)
    requires k < 5 ==> interval <= BandTop(k)
    ensures k < 5 ==> Margin(interval) == interval + interval * 8000 / BandTop(k)
    ensures k == 5 ==> Margin(interval) == interval + interval / 8
    ensures k < 5 ==> Margin(BandTop(k)) == BandTop(k) + 8000
  {
    assert BandTop(1) == 4000 && BandTop(2) == 8000 && BandTop(3) == 16000 && BandTop(4) == 32000;
  }

  /** Only the newest 21 timestamps matter: any suffix that still holds them gives the same
      estimate. */
  lemma SampleIntervalOfSuffix(points: seq<Point>, k: nat, fallback: int)
    requires k <= |points| - 21
    ensures SampleInterval(points[k..], fallback) == SampleInterval(points, fallback)
  {
    var tail := points[k..];
    assert Intervals(tail, |tail| - 20) == Intervals(points, |points| - 20);
  }

  /** Values play no part in the estimate. */
  lemma SampleIntervalReadsTimes(a: seq<Point>, b: seq<Point>, fallback: int)
    requires |a| == |b| && forall i :: 0 <= i < |a| ==> a[i].t == b[i].t
    ensures SampleInterval(a, fallback) == SampleInterval(b, fallback)
  {
    if |a| >= 2 {
      var from := Max(1, |a| - 20);
      assert Intervals(a, from) == Intervals(b, from);
    }
  }

  // ---------------------------------------------------------------- one engine step

  /** A rewritten rollup call. A zero window is resolved at each step. */
  datatype Call = Call(fn: Function, window: int, step: int, lookback: int) {
    ghost predicate Valid() { window >= 0 && step > 0 && lookback > 0 }
    /** The history the engine fetches before each step. */
    function Matrix(): int { (if window == 0 then step else window) + lookback }
  }

  /** The furthest a previous sample may lie before the window. */
  function MaxPrevious(call: Call, points: seq<Point>): int {
    Min(SampleInterval(points, call.step), call.lookback)
  }

  function WindowAt(call: Call, points: seq<Point>): int {
    if call.window == 0 then Max(call.step, MaxPrevious(call, points)) else call.window
  }

  /** The rollup of the points the engine hands over for the step at `end`. */
  function RollupOf(call: Call, points: seq<Point>, end: int): Option<real> {
    var start := end - WindowAt(call, points);
    Value(call.fn, points, FirstAfter(points, start), start, MaxPrevious(call, points), call.lookback)
  }

  /** What the reference evaluates at `end`: the points of its window, or of one step without a
      window, and of the lookback before it, rolled up. */
  function Reference(call: Call, series: seq<Point>, end: int): Option<real>
    requires call.Valid()
  {
    var span := if call.window == 0 then call.step else call.window;
    RollupOf(call, LeftOpen(series, end - span - call.lookback, end), end)
  }

  /** An instant query does not estimate: its step stands for the sample interval. */
  function InstantRollupOf(call: Call, points: seq<Point>, end: int): Option<real> {
    var maxPrev := Min(call.step, call.lookback);
    var start := end - if call.window == 0 then Max(call.step, maxPrev) else call.window;
    Value(call.fn, points, FirstAfter(points, start), start, maxPrev, call.lookback)
  }

  /** metricsQLRollup for counters: the window resolved from the sample interval, the points
      after its start, then the counter pass. */
  method Rollup(call: Call, instant: bool, points: seq<Point>, end: int) returns (r: Option<real>)
    ensures r == if instant then InstantRollupOf(call, points, end) else RollupOf(call, points, end)
  {
    var maxPrev := call.step;
    if !instant {
      maxPrev := EstimateInterval(points, call.step);
    }
    maxPrev := Min(maxPrev, call.lookback);
    var window := call.window;
    if window == 0 {
      window := Max(call.step, maxPrev);
    }
    var start := end - window;
    var after := points[FirstAfter(points, start)..];
    var first := |points| - |after|;
    r := CounterValue(call.fn, points, first, start, maxPrev, call.lookback);
  }

  const UNEVEN := [Point(0, 0.0), Point(10000, 1.0), Point(30000, 3.0)]

  lemma PairInOrder(x: int, y: int)
    requires x <= y
    ensures SortInts([x, y]) == [x, y]
  {
    assert [x, y][1..] == [y] && [y][1..] == [];
    assert SortInts([y]) == [y];
  }

  lemma UnevenEstimate(fallback: int)
    ensures SampleInterval(UNEVEN, fallback) == 24000
  {
    var gaps := Intervals(UNEVEN, 1);
    assert gaps == [10000, 20000];
    PairInOrder(10000, 20000);
    hide SortInts, Interpolate;
    assert (0.6 * 1.0).Floor == 0;
    InterpolateIs(10000, 20000, 0.6);
  }

  lemma UnevenValue()
    ensures Value(Rate, UNEVEN, 2, 25000, 24000, 300000) == Some(0.1)
  {
    assert Rise(UNEVEN, 1.0, 1, 2) == 0.0;
    assert Rise(UNEVEN, 1.0, 1, 3) == 2.0;
  }

  /** Two gaps of 10 and 20 seconds are estimated as 16 seconds and margined to 24, so that a
      window of 5 seconds takes the sample 20 seconds before its end. */
  lemma UnevenRateExample()
    ensures Reference(Call(Rate, 5000, 60000, 300000), UNEVEN, 30000) == Some(0.1)
  {
    hide SampleInterval, Value;
    UnevenEstimate(60000);
    FirstAfterIsUnique(UNEVEN, -275000, 0);
    FirstAfterIsUnique(UNEVEN, 30000, 3);
    FirstAfterIsUnique(UNEVEN, 25000, 2);
    hide FirstAfter;
    assert LeftOpen(UNEVEN, -275000, 30000) == UNEVEN;
    UnevenValue();
  }

  // ---------------------------------------------------------------- a group of series

  /** What the engine aggregates: the present values of the series of the group. */
  function ReferenceSum(call: Call, group: seq<seq<Point>>, end: int): Option<real>
    requires call.Valid()
  {
    if group == [] then None
    else
      var n := |group| - 1;
      Plus(ReferenceSum(call, group[..n], end), Reference(call, group[n], end))
  }

  function SumOfRows(rows: seq<real>): Option<real> {
    if rows == [] then None else Some(Sum(rows))
  }

  lemma {:induction false} SumOfRowsAdds(a: seq<real>, b: seq<real>)
    ensures SumOfRows(a + b) == Plus(SumOfRows(a), SumOfRows(b))
  {
    if b == [] {
      assert a + b == a;
    } else {
      var n := |b| - 1;
      assert (a + b)[..|a + b| - 1] == a + b[..n];
      SumOfRowsAdds(a, b[..n]);
      assert Sum(b[..n]) + b[n] == Sum(b);
    }
  }

  lemma NoRows()
    ensures SumOfRows([]) == None
  {
  }
}
