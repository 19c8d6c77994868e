/** The native range plan: increase and delta from neighbour contributions, and every counter
    function from per-step arrays. SQL arrays are sequences here; where the plan counts
    from 1, At does. */
module NativeRollup {
  import opened Options
  import opened Samples
  import opened Counter
  import opened StepJoin
  import opened Arithmetic

  // ---------------------------------------------------------------- array functions

  function At<T>(s: seq<T>, i: int): T
    requires 1 <= i <= |s|
  {
    s[i - 1]
  }

  function ArrayDifference(s: seq<int>): seq<int> {
    seq(|s|, k requires 0 <= k < |s| => if k == 0 then 0 else s[k] - s[k - 1])
  }

  function PopFront<T>(s: seq<T>): seq<T> { if s == [] then [] else s[1..] }
  function PopBack<T>(s: seq<T>): seq<T> { if s == [] then [] else s[..|s| - 1] }
  function LastN<T>(s: seq<T>, n: nat): seq<T> { if |s| <= n then s else s[|s| - n..] }

  function Times(points: seq<Point>): (r: seq<int>)
    ensures |r| == |points|
  {
    seq(|points|, k requires 0 <= k < |points| => points[k].t)
  }

  function Values(points: seq<Point>): (r: seq<real>)
    ensures |r| == |points|
  {
    seq(|points|, k requires 0 <= k < |points| => points[k].v)
  }

  function DropArray(vs: seq<real>, prevs: seq<real>): (r: seq<real>)
    requires |vs| == |prevs|
    ensures |r| == |vs|
  {
    seq(|vs|, k requires 0 <= k < |vs| => Drop(prevs[k], vs[k]))
  }

  // ---------------------------------------------------------------- per-step arrays

  /** low + toInt64((high - low) * fraction) */
  function PartWay(low: int, high: int, fraction: real): int {
    low + Trunc((high - low) as real * fraction)
  }

  /** The interpolated 0.6 quantile of a sorted array, its upper neighbour clamped. */
  function GapQuantile(gaps: seq<int>): int
    requires |gaps| > 0
  {
    var pos := 0.6 * (|gaps| - 1) as real;
    var gapIndex := Trunc(pos) + 1;
    PartWay(At(gaps, gapIndex), At(gaps, Min(gapIndex + 1, |gaps|)), pos - pos.Floor as real)
  }

  function MaxPrev(points: seq<Point>, call: Call): int {
    var gaps := SortInts(LastN(PopFront(ArrayDifference(Times(points))), 20));
    var sampleGap := if gaps == [] then call.step else GapQuantile(gaps);
    Min(if sampleGap <= 0 || gaps == [] then call.step else MarginSql(sampleGap), call.lookback)
  }

  function WindowMs(points: seq<Point>, call: Call): int {
    if call.window == 0 then Max(call.step, MaxPrev(points, call)) else call.window
  }

  /** Last value minus baseline, plus the drops of the tail from position begin on, each value
      against the one before it and the first against the baseline. */
  function TailValue(fn: Function, points: seq<Point>, begin: int, baseline: real): real
    requires 1 <= begin <= |points|
  {
    var tail := Values(points[begin - 1..]);
    points[|points| - 1].v - baseline +
    if RemovesResets(fn) then Sum(DropArray(tail, [baseline] + PopBack(tail))) else 0.0
  }

  /** The per-step calculation after the window split: an optional previous point, a
      baseline, and the value of the tail. */
  function ArrayValue(fn: Function, points: seq<Point>, before: nat, start: int, maxPrev: int,
                      lookback: int): Option<real>
    requires before <= |points|
  {
    var current := points[before..];
    if current == [] then None
    else
      var hasPrev := before > 0 &&
                     (At(points, before).t > start - maxPrev
                      || (WindowTotal(fn) && At(current, 1).t - At(points, before).t < lookback));
      var initialBegin := if hasPrev then before else before + 1;
      var begin := if fn.Irate? || fn.Idelta? then Max(initialBegin, |points| - 1) else initialBegin;
      var born := if |current| > 1 then At(current, 2).v - At(current, 1).v else 0.0;
      var baseline :=
        if WindowTotal(fn) then
          if hasPrev then At(points, begin).v
          else if Abs(At(current, 1).v) < 10.0 * (Abs(born) + 1.0) then 0.0 else At(current, 1).v
        else if fn.Idelta? && |points| - begin == 0 then 0.0
        else At(points, begin).v;
      var elapsed := points[|points| - 1].t - At(points, begin).t;
      if IsRate(fn) then
        if |points[begin - 1..]| < 2 || elapsed <= 0 then None
        else Some(TailValue(fn, points, begin, baseline) / (elapsed as real / 1000.0))
      else Some(TailValue(fn, points, begin, baseline))
  }

  function RollupValues(points: seq<Point>, eval: int, call: Call): Option<real> {
    var start := eval - WindowMs(points, call);
    ArrayValue(call.fn, points, FirstAfter(points, start), start, MaxPrev(points, call), call.lookback)
  }

  lemma GapsAreIntervals(points: seq<Point>)
    requires |points| >= 2
    ensures LastN(PopFront(ArrayDifference(Times(points))), 20) == Intervals(points, Max(1, |points| - 20))
  {
    var diffs := PopFront(ArrayDifference(Times(points)));
    GapsOf(points);
    hide PopFront, ArrayDifference, Times;
    var from := Max(1, |points| - 20);
    var (last, intervals) := (LastN(diffs, 20), Intervals(points, from));
    assert last == diffs[from - 1..] && |intervals| == |last|;
    forall k | 0 <= k < |last| ensures last[k] == intervals[k] {
      assert last[k] == diffs[from - 1 + k];
    }
  }

  lemma GapsOf(points: seq<Point>)
    requires |points| >= 2
    ensures var diffs := PopFront(ArrayDifference(Times(points)));
            |diffs| == |points| - 1 && forall k :: 0 <= k < |diffs| ==> diffs[k] == points[k + 1].t - points[k].t
  {
    var (ts, diffs) := (Times(points), PopFront(ArrayDifference(Times(points))));
    forall k | 0 <= k < |diffs| ensures diffs[k] == points[k + 1].t - points[k].t {
      assert diffs[k] == ArrayDifference(ts)[k + 1];
    }
  }

  lemma PartWayIs(low: int, high: int, fraction: real)
    ensures PartWay(low, high, fraction) == Interpolate(low, high, fraction)
  {
  }

  /** Reading the array from position 1 and clamping the upper neighbour changes nothing. */
  lemma GapQuantileIsReference(gaps: seq<int>)
    requires |gaps| > 0
    ensures GapQuantile(gaps) == Quantile06(gaps)
  {
    hide Interpolate, Trunc, PartWay, Quantile06;
    var pos := 0.6 * (|gaps| - 1) as real;
    var index := pos.Floor;
    TruncIsFloor(pos);
    var fraction := pos - index as real;
    QuantileSteps(gaps, pos, index, fraction);
    var next := gaps[Min(index + 1, |gaps| - 1)];
    assert GapQuantile(gaps) == PartWay(gaps[index], next, fraction);
    PartWayIs(gaps[index], next, fraction);
    if index + 1 == |gaps| {
      InterpolateNothing(gaps[index], fraction);
    }
  }

  lemma InterpolateNothing(x: int, fraction: real)
    ensures Interpolate(x, x, fraction) == x
  {
    assert (x - x) as real == 0.0;
    assert 0.0 * fraction == 0.0;
  }

  /** The array of gaps in the plan is the reference buffer of gaps. */
  lemma MaxPrevIsReference(points: seq<Point>, call: Call)
    ensures MaxPrev(points, call) == MaxPrevious(call, points)
  {
    hide SortInts, Intervals, Quantile06, GapQuantile, Margin, MarginSql;
    if |points| >= 2 {
      hide ArrayDifference, Times, PopFront, LastN;
      GapsAreIntervals(points);
      var gaps := SortInts(Intervals(points, Max(1, |points| - 20)));
      GapQuantileIsReference(gaps);
      MarginSqlIsMargin(Quantile06(gaps));
    }
  }

  lemma {:induction false} SumIsDrops(s: seq<real>, points: seq<Point>, begin: nat, base: real, k: nat)
    requires begin <= k <= |points| && |s| == k - begin
    requires forall j :: 0 <= j < |s| ==>
      s[j] == Drop(PreviousValue(points, base, begin, begin + j), points[begin + j].v)
    ensures Sum(s) == Drops(points, base, begin, k)
  {
    if begin < k {
      SumIsDrops(s[..|s| - 1], points, begin, base, k - 1);
    }
  }

  /** arraySum over the shifted tail adds the same corrections as the reference loop. */
  lemma TailValueIsTotal(fn: Function, points: seq<Point>, begin: nat, base: real)
    requires begin < |points|
    ensures TailValue(fn, points, begin + 1, base) ==
            if RemovesResets(fn) then Rise(points, base, begin, |points|) else points[|points| - 1].v - base
  {
    var n := |points|;
    var tail := Values(points[begin..]);
    var prevs := [base] + PopBack(tail);
    var drops := DropArray(tail, prevs);
    forall j | 0 <= j < |drops|
      ensures drops[j] == Drop(PreviousValue(points, base, begin, begin + j), points[begin + j].v)
    {
      assert prevs[j] == PreviousValue(points, base, begin, begin + j);
    }
    SumIsDrops(drops, points, begin, base, n);
    RiseTelescopes(points, base, begin, n);
  }

  lemma TotalArrayValue(fn: Function, points: seq<Point>, first: nat, start: int, maxPrev: int, lookback: int)
    requires first < |points| && (WindowTotal(fn))
    ensures ArrayValue(fn, points, first, start, maxPrev, lookback)
        == Value(fn, points, first, start, maxPrev, lookback)
  {
    hide TailValue, Rise, Step, Abs;
    var initial := if HasPrevious(fn, points, first, start, maxPrev, lookback) then first - 1 else first;
    TailValueIsTotal(fn, points, initial, if initial < first then points[initial].v else BirthBase(points, first));
  }

  lemma RateArrayValue(fn: Function, points: seq<Point>, first: nat, start: int, maxPrev: int, lookback: int)
    requires first < |points| && (fn.Rate?)
    ensures ArrayValue(fn, points, first, start, maxPrev, lookback)
        == Value(fn, points, first, start, maxPrev, lookback)
  {
    hide TailValue, Rise, Step, Abs;
    var initial := if HasPrevious(fn, points, first, start, maxPrev, lookback) then first - 1 else first;
    TailValueIsTotal(fn, points, initial, points[initial].v);
  }

  lemma IrateArrayValue(fn: Function, points: seq<Point>, first: nat, start: int, maxPrev: int, lookback: int)
    requires first < |points| && (fn.Irate?)
    ensures ArrayValue(fn, points, first, start, maxPrev, lookback)
        == Value(fn, points, first, start, maxPrev, lookback)
  {
    hide TailValue, Rise, Step, Abs;
    var initial := if HasPrevious(fn, points, first, start, maxPrev, lookback) then first - 1 else first;
    var begin := Max(initial, |points| - 2);
    TailValueIsTotal(fn, points, begin, points[begin].v);
    if begin == |points| - 2 {
      LastStepOnly(points);
    }
  }

  lemma IdeltaArrayValue(fn: Function, points: seq<Point>, first: nat, start: int, maxPrev: int, lookback: int)
    requires first < |points| && (fn.Idelta?)
    ensures ArrayValue(fn, points, first, start, maxPrev, lookback)
        == Value(fn, points, first, start, maxPrev, lookback)
  {
    hide TailValue, Rise, Step, Abs;
    var initial := if HasPrevious(fn, points, first, start, maxPrev, lookback) then first - 1 else first;
    var begin := Max(initial, |points| - 2);
    TailValueIsTotal(fn, points, begin, if begin == |points| - 1 then 0.0 else points[begin].v);
  }

  lemma ArrayValueIsReference(fn: Function, points: seq<Point>, first: nat, start: int, maxPrev: int, lookback: int)
    requires first <= |points|
    ensures ArrayValue(fn, points, first, start, maxPrev, lookback)
        == Value(fn, points, first, start, maxPrev, lookback)
  {
    if first < |points| {
      hide ArrayValue, Value;
      match fn
      case Increase => TotalArrayValue(fn, points, first, start, maxPrev, lookback);
      case Delta => TotalArrayValue(fn, points, first, start, maxPrev, lookback);
      case Rate => RateArrayValue(fn, points, first, start, maxPrev, lookback);
      case Irate => IrateArrayValue(fn, points, first, start, maxPrev, lookback);
      case Idelta => IdeltaArrayValue(fn, points, first, start, maxPrev, lookback);
    }
  }

  /** For every counter function and every step, the array program computes the reference
      rollup of the same points. */
  lemma RollupValuesIsReference(points: seq<Point>, eval: int, call: Call)
    ensures RollupValues(points, eval, call) == RollupOf(call, points, eval)
  {
    hide MaxPrev, MaxPrevious, ArrayValue, Value, FirstAfter;
    MaxPrevIsReference(points, call);
    var start := eval - WindowMs(points, call);
    ArrayValueIsReference(call.fn, points, FirstAfter(points, start), start, MaxPrev(points, call), call.lookback);
  }

  // ---------------------------------------------------------------- one series of the plan

  function Ranges(g: Grid, points: seq<Point>, span: int): (r: seq<(int, int)>)
    requires g.Valid()
    ensures |r| == |points|
  {
    seq(|points|, k requires 0 <= k < |points| => NativeRange(g, points[k].t, span))
  }

  /** The samples a step is joined to are those of its left-open window, in order. */
  lemma JoinIsWindow(g: Grid, points: seq<Point>, span: int, idx: int)
    requires g.Valid() && Sorted(points) && 0 <= idx < g.count && span >= 0
    ensures FirstAfter(points, g.Eval(idx) - span) <= FirstAfter(points, g.Eval(idx))
    ensures Group(Ranges(g, points, span), idx) ==
            Interval(FirstAfter(points, g.Eval(idx) - span), FirstAfter(points, g.Eval(idx)))
  {
    var a, b := FirstAfter(points, g.Eval(idx) - span), FirstAfter(points, g.Eval(idx));
    FirstAfterIsMonotone(points, g.Eval(idx) - span, g.Eval(idx));
    var ranges := Ranges(g, points, span);
    forall k | 0 <= k < |ranges| ensures In(ranges[k], idx) <==> a <= k < b {
      NativeRangeCovers(g, points[k].t, span, idx);
      LeftOpenMembers(points, g.Eval(idx) - span, g.Eval(idx), k);
    }
    GroupIsInterval(ranges, idx, a, b);
  }

  function Pick(points: seq<Point>, ordinals: seq<nat>): seq<Point>
    requires forall k :: 0 <= k < |ordinals| ==> ordinals[k] < |points|
  {
    seq(|ordinals|, k requires 0 <= k < |ordinals| => points[ordinals[k]])
  }

  /** The exact path: each step's matrix gathered into an array and rolled up. */
  function WindowRollup(g: Grid, call: Call, points: seq<Point>, idx: int): Option<real>
    requires g.Valid()
  {
    RollupValues(Pick(points, Group(Ranges(g, points, call.Matrix()), idx)), g.Eval(idx), call)
  }

  function LongGap(points: seq<Point>, lookback: int): bool {
    exists d :: d in ArrayDifference(Times(points)) && d >= lookback
  }

  predicate InMatrix(call: Call, points: seq<Point>, eval: int, i: nat)
    requires i <= |points|
  {
    i > 0 && points[i - 1].t > eval - call.Matrix()
  }

  /** What one sample adds to a step that reads it: its difference to the previous sample
      when that lies in the matrix, otherwise its birth value. */
  function Contribution(call: Call, points: seq<Point>, eval: int, i: nat): real
    requires i < |points|
  {
    var v := points[i].v;
    if InMatrix(call, points, eval, i) then Difference(call.fn, points[i - 1].v, v)
    else
      var next := if i + 1 < |points| && points[i + 1].t <= eval then points[i + 1].v - v else 0.0;
      if Abs(v) < 10.0 * (Abs(next) + 1.0) then v else 0.0
  }

  function Contributions(call: Call, points: seq<Point>, eval: int, ordinals: seq<nat>): (r: seq<real>)
    requires forall k :: 0 <= k < |ordinals| ==> ordinals[k] < |points|
    ensures |r| == |ordinals|
  {
    seq(|ordinals|, k requires 0 <= k < |ordinals| => Contribution(call, points, eval, ordinals[k]))
  }

  /** increase or delta of one series at one step: the sum of the contributions joined to the
      step, or the exact path for a series with a lookback-sized gap. */
  function TotalRollup(g: Grid, call: Call, points: seq<Point>, idx: int): Option<real>
    requires g.Valid()
  {
    if LongGap(points, call.lookback) then WindowRollup(g, call, points, idx)
    else
      var ordinals := Group(Ranges(g, points, call.window), idx);
      if ordinals == [] then None else Some(Sum(Contributions(call, points, g.Eval(idx), ordinals)))
  }

  // ---------------------------------------------------------------- agreement

  /** Where the total over a window starts, and from which value. */
  function Begin(call: Call, points: seq<Point>, eval: int, a: nat): nat
    requires a <= |points|
  {
    if InMatrix(call, points, eval, a) then a - 1 else a
  }

  function Base(call: Call, points: seq<Point>, eval: int, a: nat, n: nat): real
    requires a < n <= |points|
  {
    if InMatrix(call, points, eval, a) then points[a - 1].v else BirthBase(points[..n], a)
  }

  lemma FirstContribution(call: Call, points: seq<Point>, eval: int, a: nat, n: nat)
    requires WindowTotal(call.fn) && Sorted(points) && a < n <= |points| && n == FirstAfter(points, eval)
    ensures Contribution(call, points, eval, a) ==
            Total(call.fn, points, Base(call, points, eval, a, n), Begin(call, points, eval, a), a + 1)
  {
    hide FirstAfter;
    FirstAfterSplits(points, eval);
    var base, begin := Base(call, points, eval, a, n), Begin(call, points, eval, a);
    assert Rise(points, base, begin, begin) == 0.0;
    if begin < a {
      assert Rise(points, base, begin, a) == 0.0 + Step(base, base);
    }
  }

  /** Contributions telescope through rises, partial resets and full resets. */
  lemma ContributionsTelescope(call: Call, points: seq<Point>, eval: int, a: nat, n: nat)
    requires WindowTotal(call.fn) && Sorted(points) && a < n <= |points|
    requires points[a].t > eval - call.Matrix() && n == FirstAfter(points, eval)
    ensures Sum(Contributions(call, points, eval, Interval(a, n))) ==
            Total(call.fn, points, Base(call, points, eval, a, n), Begin(call, points, eval, a), n)
  {
    hide FirstAfter, Sum, Total, Base, Difference;
    FirstContribution(call, points, eval, a, n);
    TotalIsSumOfDifferences(call.fn, points, Contributions(call, points, eval, Interval(a, n)),
                            Base(call, points, eval, a, n), Begin(call, points, eval, a), a, n);
  }

  /** Without long gaps, a previous sample in the matrix is always one the reference takes. */
  lemma NoLongGapMeansClose(points: seq<Point>, lookback: int, i: nat)
    requires !LongGap(points, lookback) && 0 < i < |points|
    ensures points[i].t - points[i - 1].t < lookback
  {
    var d := ArrayDifference(Times(points));
    assert d[i] in d;
  }

  /** The reference reads the same base and begin from the matrix it is given. */
  lemma MatrixTotal(call: Call, points: seq<Point>, eval: int, m: nat, a: nat, n: nat)
    requires WindowTotal(call.fn) && call.Valid() && call.window > 0 && Sorted(points)
    requires !LongGap(points, call.lookback)
    requires m <= a < n <= |points|
    requires m == FirstAfter(points, eval - call.Matrix()) && a == FirstAfter(points, eval - call.window)
    requires n == FirstAfter(points, eval)
    ensures RollupOf(call, points[m..n], eval) ==
            Some(Total(call.fn, points, Base(call, points, eval, a, n), Begin(call, points, eval, a), n))
  {
    hide FirstAfter, Rise, MaxPrevious, LongGap, Abs;
    var matrix := points[m..n];
    FirstAfterInSlice(points, m, n, eval - call.window);
    FirstAfterSplits(points, eval - call.Matrix());
    assert FirstAfter(matrix, eval - call.window) == a - m;
    if a > 0 {
      NoLongGapMeansClose(points, call.lookback, a);
    }
    var begin := Begin(call, points, eval, a);
    RiseInSlice(points, m, n, Base(call, points, eval, a, n), begin - m, n - m);
  }

  /** The fast path agrees with the reference on the matrix cut out of the series. */
  lemma FastPathIsReference(call: Call, points: seq<Point>, eval: int)
    requires WindowTotal(call.fn) && call.Valid() && call.window > 0 && Sorted(points)
    requires !LongGap(points, call.lookback)
    requires FirstAfter(points, eval - call.window) < FirstAfter(points, eval)
    ensures Reference(call, points, eval) ==
            Some(Sum(Contributions(call, points, eval,
                Interval(FirstAfter(points, eval - call.window), FirstAfter(points, eval)))))
  {
    hide FirstAfter, RollupOf, LongGap, Sum, Contributions, Total;
    var m, a, n := FirstAfter(points, eval - call.Matrix()), FirstAfter(points, eval - call.window),
        FirstAfter(points, eval);
    FirstAfterIsMonotone(points, eval - call.Matrix(), eval - call.window);
    FirstAfterSplits(points, eval - call.window);
    ContributionsTelescope(call, points, eval, a, n);
    MatrixTotal(call, points, eval, m, a, n);
  }

  /** The exact path is the reference, for every counter function and every series. */
  lemma WindowRollupIsReference(g: Grid, call: Call, series: seq<Point>, idx: int)
    requires g.Valid() && call.Valid() && Sorted(series) && 0 <= idx < g.count
    ensures WindowRollup(g, call, Fetched(g, call, series), idx) == Reference(call, series, g.Eval(idx))
  {
    hide FirstAfter, RollupOf, RollupValues, Fetched, Group, Ranges;
    var points := Fetched(g, call, series);
    FetchedKeepsWindows(g, call, series, idx);
    var eval := g.Eval(idx);
    JoinIsWindow(g, points, call.Matrix(), idx);
    var a, b := FirstAfter(points, eval - call.Matrix()), FirstAfter(points, eval);
    assert Pick(points, Interval(a, b)) == points[a..b];
    RollupValuesIsReference(points[a..b], eval, call);
  }

  /** No sample in the window, no point. */
  lemma EmptyWindowIsNone(call: Call, points: seq<Point>, eval: int)
    requires call.Valid() && call.window > 0 && Sorted(points)
    requires FirstAfter(points, eval - call.window) == FirstAfter(points, eval)
    ensures Reference(call, points, eval) == None
  {
    hide FirstAfter, MaxPrevious;
    var m, n := FirstAfter(points, eval - call.Matrix()), FirstAfter(points, eval);
    FirstAfterIsMonotone(points, eval - call.Matrix(), eval);
    FirstAfterInSlice(points, m, n, eval - call.window);
  }

  /** Main result: on either side of the long-gap split, the plan's increase and delta are
      the reference values at every step, and absent exactly where the reference is. */
  lemma TotalRollupIsReference(g: Grid, call: Call, series: seq<Point>, idx: int)
    requires g.Valid() && call.Valid() && WindowTotal(call.fn) && call.window > 0
    requires Sorted(series) && 0 <= idx < g.count
    ensures TotalRollup(g, call, Fetched(g, call, series), idx) == Reference(call, series, g.Eval(idx))
  {
    hide FirstAfter, Reference, WindowRollup, Fetched, Group, Ranges, Sum, LongGap, Contributions;
    var points := Fetched(g, call, series);
    FetchedKeepsWindows(g, call, series, idx);
    if LongGap(points, call.lookback) {
      WindowRollupIsReference(g, call, series, idx);
    } else {
      var eval := g.Eval(idx);
      JoinIsWindow(g, points, call.window, idx);
      if FirstAfter(points, eval - call.window) < FirstAfter(points, eval) {
        FastPathIsReference(call, points, eval);
      } else {
        EmptyWindowIsNone(call, points, eval);
      }
    }
  }

  // ---------------------------------------------------------------- sum over series

  /** The rows one series sends to a summing aggregate: its contributions unsummed, or the
      single row of the exact path. */
  function SeriesRows(g: Grid, call: Call, points: seq<Point>, idx: int): seq<real>
    requires g.Valid()
  {
    if LongGap(points, call.lookback) then
      match WindowRollup(g, call, points, idx)
      case None => []
      case Some(v) => [v]
    else Contributions(call, points, g.Eval(idx), Group(Ranges(g, points, call.window), idx))
  }

  function GroupRows(g: Grid, call: Call, group: seq<seq<Point>>, idx: int): seq<real>
    requires g.Valid() && g.count > 0 && call.Valid()
  {
    if group == [] then []
    else
      var n := |group| - 1;
      GroupRows(g, call, group[..n], idx) + SeriesRows(g, call, Fetched(g, call, group[n]), idx)
  }

  /** Summing all contributions of a group at once, skipping the per-series value, is the sum
      of the reference values, and there is a row exactly when some series has a point. */
  lemma {:induction false} SumContributionsIsReference(g: Grid, call: Call, group: seq<seq<Point>>, idx: int)
    requires g.Valid() && call.Valid() && WindowTotal(call.fn) && call.window > 0
    requires 0 <= idx < g.count && forall k :: 0 <= k < |group| ==> Sorted(group[k])
    ensures SumOfRows(GroupRows(g, call, group, idx)) == ReferenceSum(call, group, g.Eval(idx))
  {
    hide Reference, Fetched, SumOfRows, WindowRollup, LongGap, Contributions, Group, Ranges;
    if group == [] {
      assert SumOfRows([]) == None by { NoRows(); }
    } else {
      var n := |group| - 1;
      var points := Fetched(g, call, group[n]);
      SumContributionsIsReference(g, call, group[..n], idx);
      TotalRollupIsReference(g, call, group[n], idx);
      SumOfRowsAdds(GroupRows(g, call, group[..n], idx), SeriesRows(g, call, points, idx));
      OneSeriesRows(g, call, points, idx);
    }
  }

  lemma OneSeriesRows(g: Grid, call: Call, points: seq<Point>, idx: int)
    requires g.Valid()
    ensures SumOfRows(SeriesRows(g, call, points, idx)) == TotalRollup(g, call, points, idx)
  {
    hide WindowRollup, LongGap, Group, Ranges, Contribution;
    match WindowRollup(g, call, points, idx)
    case None =>
    case Some(v) => assert Sum([v][..0]) == 0.0;
  }
}
