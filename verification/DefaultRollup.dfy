/** The default rollup: the newest reading of a window, unless it is a stale marker. The
    PostHog plan gets it from one row per step, the native plan from per-step arrays, and an
    offset subquery from two indices moving over the aggregated points. */
module DefaultRollup {
  import opened Options
  import opened Samples
  import opened Counter
  import opened StepJoin
  import opened Arithmetic
  import NativeRollup
  import PostHogRollup

  /** A stored reading. None stands for a stale marker or any other NaN. */
  datatype Reading = Reading(t: int, v: Option<real>)

  /** The timestamps alone, for searching and for the interval estimate. */
  function Clock(points: seq<Reading>): (r: seq<Point>)
    ensures |r| == |points|
    ensures forall k :: 0 <= k < |r| ==> r[k].t == points[k].t
  {
    seq(|points|, k requires 0 <= k < |points| => Point(points[k].t, 0.0))
  }

  ghost predicate InOrder(points: seq<Reading>) {
    forall i, j :: 0 <= i < j < |points| ==> points[i].t < points[j].t
  }

  // ---------------------------------------------------------------- reference

  /** metricsQLRollup for default_rollup over the points of one matrix: the last reading
      after the window start, if it is a number. */
  function NewestAfter(points: seq<Reading>, start: int): Option<real> {
    var after := points[FirstAfter(Clock(points), start)..];
    if after == [] then None else after[|after| - 1].v
  }

  function AutomaticWindow(points: seq<Reading>, step: int, lookback: int): int {
    var maxPrev := Min(SampleInterval(Clock(points), step), lookback);
    Min(Max(step, maxPrev), lookback)
  }

  /** The points of the left-open matrix that ends at `end`. */
  function Matrix(points: seq<Reading>, matrix: int, end: int): seq<Reading>
    requires matrix >= 0
  {
    FirstAfterIsMonotone(Clock(points), end - matrix, end);
    points[FirstAfter(Clock(points), end - matrix)..FirstAfter(Clock(points), end)]
  }

  /** One engine step with window 0: the window comes from the matrix itself. */
  function Automatic(points: seq<Reading>, matrix: int, step: int, lookback: int, end: int): Option<real>
    requires matrix >= 0
  {
    var m := Matrix(points, matrix, end);
    NewestAfter(m, end - AutomaticWindow(m, step, lookback))
  }

  /** In time order the last point alone decides a window. */
  lemma LastPointDecides(points: seq<Reading>, start: int)
    requires InOrder(points)
    ensures NewestAfter(points, start) ==
            if points != [] && points[|points| - 1].t > start then points[|points| - 1].v else None
  {
    hide FirstAfter;
    FirstAfterSplits(Clock(points), start);
    if points != [] {
      assert Clock(points)[|points| - 1].t == points[|points| - 1].t;
    }
  }

  lemma MatrixEnds(points: seq<Reading>, matrix: int, end: int)
    requires InOrder(points) && matrix >= 0
    ensures var n, cut := FirstAfter(Clock(points), end), Matrix(points, matrix, end);
      InOrder(cut) && (cut != [] <==> n > 0 && points[n - 1].t > end - matrix)
      && (cut != [] ==> cut[|cut| - 1] == points[n - 1])
  {
    hide FirstAfter;
    var m, n := FirstAfter(Clock(points), end - matrix), FirstAfter(Clock(points), end);
    FirstAfterIsMonotone(Clock(points), end - matrix, end);
    FirstAfterSplits(Clock(points), end - matrix);
    if n > 0 {
      assert Clock(points)[n - 1].t == points[n - 1].t;
    }
  }

  /** The newest reading at or before the end decides: it must be young enough and a number. */
  lemma NewestDecides(points: seq<Reading>, matrix: int, window: int, end: int)
    requires InOrder(points) && 0 <= window <= matrix
    ensures var n := FirstAfter(Clock(points), end);
      NewestAfter(Matrix(points, matrix, end), end - window) ==
      if n > 0 && points[n - 1].t > end - window then points[n - 1].v else None
  {
    hide FirstAfter, Clock, NewestAfter, Matrix;
    MatrixEnds(points, matrix, end);
    LastPointDecides(Matrix(points, matrix, end), end - window);
  }

  // ---------------------------------------------------------------- PostHog plan

  /** A reading is joined to the steps until the next reading, at most for the matrix. */
  function Span(points: seq<Reading>, matrix: int, i: nat): int
    requires i < |points|
  {
    Min(matrix, if i + 1 < |points| then points[i + 1].t - points[i].t else matrix)
  }

  function Ranges(g: Grid, points: seq<Reading>, matrix: int): (r: seq<(int, int)>)
    requires g.Valid()
    ensures |r| == |points|
  {
    seq(|points|, k requires 0 <= k < |points| => PostHogRange(g, points[k].t, Span(points, matrix, k)))
  }

  /** any(...) over the joined rows of a step: no row or an old or stale one gives nothing. */
  function AnyRow(points: seq<Reading>, ordinals: seq<nat>, eval: int, window: int): Option<real>
    requires forall k :: 0 <= k < |ordinals| ==> ordinals[k] < |points|
  {
    if ordinals == [] then None
    else
      var p := points[ordinals[0]];
      if eval - p.t < window then p.v else None
  }

  lemma SpanCovers(points: seq<Reading>, matrix: int, eval: int, k: nat)
    requires InOrder(points) && matrix >= 0 && k < |points|
    ensures points[k].t <= eval < points[k].t + Span(points, matrix, k)
       <==> k == FirstAfter(Clock(points), eval) - 1 && points[k].t > eval - matrix
  {
    hide FirstAfter;
    FirstAfterSplits(Clock(points), eval);
    assert Clock(points)[k].t == points[k].t;
    if k + 1 < |points| {
      assert Clock(points)[k + 1].t == points[k + 1].t;
    }
  }

  /** The spans are disjoint: a step is joined to the newest reading at or before it, when
      that lies in the matrix, and to no other. */
  lemma AtMostOneRow(g: Grid, points: seq<Reading>, matrix: int, idx: int)
    requires g.Valid() && InOrder(points) && matrix >= 0 && 0 <= idx < g.count
    ensures var n := FirstAfter(Clock(points), g.Eval(idx));
      Group(Ranges(g, points, matrix), idx + 1) ==
      if n > 0 && points[n - 1].t > g.Eval(idx) - matrix then [n - 1] else []
  {
    hide FirstAfter, Clock, PostHogRange, Span, Group, Grid.Eval;
    var eval := g.Eval(idx);
    var n := FirstAfter(Clock(points), eval);
    var ranges := Ranges(g, points, matrix);
    var found := n > 0 && points[n - 1].t > eval - matrix;
    forall k | 0 <= k < |ranges| ensures In(ranges[k], idx + 1) <==> found && k == n - 1 {
      PostHogRangeCovers(g, points[k].t, Span(points, matrix, k), idx);
      SpanCovers(points, matrix, eval, k);
    }
    if found {
      GroupIsInterval(ranges, idx + 1, n - 1, n);
      assert Interval(n - 1, n) == [n - 1];
    } else {
      GroupIsInterval(ranges, idx + 1, 0, 0);
    }
  }

  /** The pushdown value is the reference default rollup with the same window, at every step. */
  lemma PostHogDefaultIsReference(g: Grid, points: seq<Reading>, matrix: int, window: int, idx: int)
    requires g.Valid() && InOrder(points) && 0 <= window <= matrix && 0 <= idx < g.count
    ensures AnyRow(points, Group(Ranges(g, points, matrix), idx + 1), g.Eval(idx), window)
         == NewestAfter(Matrix(points, matrix, g.Eval(idx)), g.Eval(idx) - window)
  {
    hide FirstAfter, Group, Ranges, NewestAfter;
    AtMostOneRow(g, points, matrix, idx);
    NewestDecides(points, matrix, window, g.Eval(idx));
  }

  /** The window of the plan for a call without one: from the one estimate for the series. */
  function PlanWindow(points: seq<Reading>, call: Call): int {
    if call.window == 0 then Min(Max(call.step, PostHogRollup.PlanMaxPrev(call, Clock(points))), call.lookback)
    else call.window
  }

  /** Exactly when the pushdown of a bare selector meets the reference, which resolves the
      window from the matrix of the step: when there is no reading, the newest one is stale, or
      both windows hold it or neither does. */
  lemma PostHogAutomaticIff(g: Grid, points: seq<Reading>, call: Call, idx: int)
    requires g.Valid() && call.Valid() && call.window == 0 && InOrder(points) && 0 <= idx < g.count
    ensures var eval := g.Eval(idx);
      var n := FirstAfter(Clock(points), eval);
      var window := AutomaticWindow(Matrix(points, call.Matrix(), eval), call.step, call.lookback);
      AnyRow(points, Group(Ranges(g, points, call.Matrix()), idx + 1), eval, PlanWindow(points, call))
      == Automatic(points, call.Matrix(), call.step, call.lookback, eval) <==>
      n == 0 || points[n - 1].v == None
      || (points[n - 1].t > eval - PlanWindow(points, call) <==> points[n - 1].t > eval - window)
  {
    hide FirstAfter, Group, Ranges, NewestAfter, SampleInterval, Matrix, PostHogRollup.PlanMaxPrev, AnyRow, Clock;
    var eval := g.Eval(idx);
    var window := AutomaticWindow(Matrix(points, call.Matrix(), eval), call.step, call.lookback);
    WindowsAreBounded(points, call, eval);
    PostHogDefaultIsReference(g, points, call.Matrix(), PlanWindow(points, call), idx);
    NewestDecides(points, call.Matrix(), PlanWindow(points, call), eval);
    NewestDecides(points, call.Matrix(), window, eval);
  }

  lemma WindowsAreBounded(points: seq<Reading>, call: Call, eval: int)
    requires call.Valid() && call.window == 0
    ensures 0 < PlanWindow(points, call) <= call.Matrix()
    ensures 0 < AutomaticWindow(Matrix(points, call.Matrix(), eval), call.step, call.lookback) <= call.Matrix()
  {
    hide SampleInterval, Matrix, PostHogRollup.PlanMaxPrev;
  }

  // ---------------------------------------------------------------- native plan

  /** The per-step array form: the last element of the current window. */
  function NativeDefault(points: seq<Reading>, eval: int, call: Call): Option<real> {
    var maxPrev := NativeRollup.MaxPrev(Clock(points), call);
    var window := if call.window == 0 then Min(Max(call.step, maxPrev), call.lookback) else call.window;
    var current := points[FirstAfter(Clock(points), eval - window)..];
    if current == [] then None else current[|current| - 1].v
  }

  /** With its explicit or automatic window the native form is the reference of the same
      matrix. */
  lemma NativeDefaultIsReference(points: seq<Reading>, matrix: int, call: Call, eval: int)
    requires matrix >= 0
    ensures var m := Matrix(points, matrix, eval);
      NativeDefault(m, eval, call) ==
      NewestAfter(m, eval - if call.window == 0 then AutomaticWindow(m, call.step, call.lookback) else call.window)
    ensures call.window == 0 ==>
      NativeDefault(Matrix(points, matrix, eval), eval, call) ==
      Automatic(points, matrix, call.step, call.lookback, eval)
  {
    hide FirstAfter, SampleInterval, NativeRollup.MaxPrev, Matrix, Clock;
    NativeRollup.MaxPrevIsReference(Clock(Matrix(points, matrix, eval)), call);
  }

  // ---------------------------------------------------------------- offset subquery

  datatype Subquery = Subquery(offset: int, matrix: int, step: int, lookback: int) {
    ghost predicate Valid() { step > 0 && lookback > 0 && matrix == step + lookback }
  }

  /** The reference at one request step, read `offset` earlier. */
  function StepValue(q: Subquery, points: seq<Reading>, ts: int): seq<Point>
    requires q.matrix >= 0
  {
    match Automatic(points, q.matrix, q.step, q.lookback, ts - q.offset)
    case None => []
    case Some(v) => [Point(ts, v)]
  }

  /** The reference points of the request steps before `until`. */
  function StepValues(q: Subquery, points: seq<Reading>, start: int, n: nat): seq<Point>
    requires q.matrix >= 0
  {
    if n == 0 then [] else StepValues(q, points, start, n - 1) + StepValue(q, points, start + (n - 1) * q.step)
  }

  /** The number of request steps from start to end, both included. */
  function StepCount(start: int, end: int, step: int): nat
    requires step > 0
  {
    if end < start then 0 else (end - start) / step + 1
  }

  /** The test on the newest point of the two-index window is the reference rollup. */
  lemma NewestTest(q: Subquery, points: seq<Reading>, end: int)
    requires q.Valid() && InOrder(points)
    ensures var m := Matrix(points, q.matrix, end);
      Automatic(points, q.matrix, q.step, q.lookback, end) ==
      if m == [] then None
      else if m[|m| - 1].t <= end - AutomaticWindow(m, q.step, q.lookback) then None else m[|m| - 1].v
  {
    hide FirstAfter, SampleInterval, NewestAfter, Matrix, Clock;
    var m := Matrix(points, q.matrix, end);
    MatrixEnds(points, q.matrix, end);
    LastPointDecides(m, end - AutomaticWindow(m, q.step, q.lookback));
  }

  /** The loop of rangeOffsetSubqueryRollup over one group: two indices that only move
      forward bound the window of each shifted step. */
  method RollupGroup(q: Subquery, points: seq<Reading>, start: int, end: int) returns (out: seq<Point>)
    requires q.Valid() && InOrder(points)
    ensures out == StepValues(q, points, start, StepCount(start, end, q.step))
  {
    hide FirstAfter, SampleInterval, Automatic, AutomaticWindow;
    var clock := Clock(points);
    var first, last, ts := 0, 0, start;
    ghost var n: nat := 0;
    out := [];
    while ts <= end
      invariant ts == start + n * q.step && n <= StepCount(start, end, q.step)
      invariant ts > end ==> n == StepCount(start, end, q.step)
      invariant out == StepValues(q, points, start, n)
      invariant first <= FirstAfter(clock, ts - q.offset - q.matrix)
      invariant last <= FirstAfter(clock, ts - q.offset)
      decreases end - ts
    {
      var stop := ts - q.offset;
      first, last := Slide(clock, first, last, stop - q.matrix, stop);
      var window := points[first..last];
      assert window == Matrix(points, q.matrix, stop);
      NewestTest(q, points, stop);
      if |window| > 0 {
        var width := AutomaticWindow(window, q.step, q.lookback);
        var latest := window[|window| - 1];
        if latest.t > stop - width && latest.v.Some? {
          out := out + [Point(ts, latest.v.value)];
        }
      }
      NextStep(start, end, q.step, n);
      FirstAfterIsMonotone(clock, stop - q.matrix, stop + q.step - q.matrix);
      FirstAfterIsMonotone(clock, stop, stop + q.step);
      ts, n := ts + q.step, n + 1;
    }
  }

  /** Moving both indices forward to the window (lo, hi]. */
  method Slide(points: seq<Point>, first: nat, last: nat, lo: int, hi: int) returns (a: nat, b: nat)
    requires lo <= hi && first <= FirstAfter(points, lo) && last <= FirstAfter(points, hi)
    ensures a == FirstAfter(points, lo) && b == FirstAfter(points, hi) && a <= b
  {
    hide FirstAfter;
    FirstAfterSplits(points, lo);
    FirstAfterSplits(points, hi);
    FirstAfterIsMonotone(points, lo, hi);
    a, b := first, last;
    while a < |points| && points[a].t <= lo
      invariant first <= a <= FirstAfter(points, lo)
    {
      a := a + 1;
    }
    if b < a {
      b := a;
    }
    while b < |points| && points[b].t <= hi
      invariant a <= b <= FirstAfter(points, hi)
    {
      b := b + 1;
    }
  }

  lemma NextStep(start: int, end: int, step: int, n: nat)
    requires step > 0 && start + n * step <= end && n <= StepCount(start, end, step)
    ensures n + 1 <= StepCount(start, end, step)
    ensures start + (n + 1) * step > end ==> n + 1 == StepCount(start, end, step)
    ensures (n + 1) * step == n * step + step
  {
    var count := (end - start) / step;
    assert end - start == count * step + (end - start) % step;
    assert (n + 1) * step == n * step + step && (count + 1) * step == count * step + step;
    assert n <= count by {
      if n > count {
        MulMonotone(count + 1, n, step);
        assert false;
      }
    }
    if n < count {
      MulMonotone(n + 1, count, step);
    }
  }

  datatype Series<M> = Series(metric: M, points: seq<Reading>)
  datatype Result<M> = Result(metric: M, points: seq<Point>)

  function GroupResults<M>(q: Subquery, groups: seq<Series<M>>, start: int, end: int): seq<Result<M>>
    requires q.Valid()
  {
    if groups == [] then []
    else
      var n := |groups| - 1;
      var points := StepValues(q, groups[n].points, start, StepCount(start, end, q.step));
      GroupResults(q, groups[..n], start, end) + if points == [] then [] else [Result(groups[n].metric, points)]
  }

  /** rangeOffsetSubqueryRollup: every group at every request step, groups without a point
      dropped. */
  method RollupGroups<M>(q: Subquery, groups: seq<Series<M>>, start: int, end: int) returns (out: seq<Result<M>>)
    requires q.Valid() && forall k :: 0 <= k < |groups| ==> InOrder(groups[k].points)
    ensures out == GroupResults(q, groups, start, end)
  {
    out := [];
    for k := 0 to |groups|
      invariant out == GroupResults(q, groups[..k], start, end)
    {
      var points := RollupGroup(q, groups[k].points, start, end);
      assert groups[..k + 1][..k] == groups[..k];
      if |points| > 0 {
        out := out + [Result(groups[k].metric, points)];
      }
    }
    assert groups[..|groups|] == groups;
  }

  /** Where the plans start evaluating the aggregate of an offset subquery. */
  function GridStart(first: int, step: int): int
    requires step > 0
  {
    var aligned := step * TruncDiv(first, step);
    if aligned <= first then aligned + step else aligned
  }

  /** It is the first multiple of the step after the earliest matrix begins, on either side of
      the epoch, so no subquery point of any matrix is missed and none is computed in vain. */
  lemma GridStartIsFirstMultiple(first: int, step: int, k: int)
    requires step > 0
    ensures GridStart(first, step) % step == 0 && GridStart(first, step) - step <= first < GridStart(first, step)
    ensures k * step > first ==> k * step >= GridStart(first, step)
  {
    var q := TruncDiv(first, step);
    if first >= 0 {
      assert first == (first / step) * step + first % step;
    } else {
      assert -first == (-first / step) * step + (-first) % step;
      assert q * step == -((-first / step) * step);
    }
    assert step * q == q * step;
    var g := if q * step <= first then q + 1 else q;
    assert GridStart(first, step) == g * step by {
      assert (q + 1) * step == q * step + step;
    }
    assert (g - 1) * step == g * step - step;
    assert (g * step) % step == 0 by { Multiple(g, step); }
    if k * step > first && k < g {
      MulMonotone(k, g - 1, step);
    } else if k >= g {
      MulMonotone(g, k, step);
    }
  }
}
