/** The PostHog range plan: every counter function from one row per sample and step, with a
    sample interval estimated once for the series. */
module PostHogRollup {
  import opened Options
  import opened Samples
  import opened Counter
  import opened StepJoin
  import opened Arithmetic

  /** What the plan fixes for one series at one step. */
  datatype Frame = Frame(fn: Function, eval: int, window: int, maxPrev: int, lookback: int) {
    ghost predicate Valid() { window > 0 && lookback > 0 && maxPrev <= lookback }
    function Matrix(): int { window + lookback }
  }

  /** One contribution row. `first` holds for the first sample of the window. */
  datatype Row = Row(ts: int, v: real, first: bool, hasPrev: bool, diff: real, gap: int,
                     contribution: real, gapContribution: int)

  predicate FirstOfWindow(f: Frame, points: seq<Point>, i: nat)
    requires i < |points|
  {
    i == 0 || points[i - 1].t <= f.eval - f.window
  }

  /** increase and delta take any previous sample inside the matrix; the others also need it
      within the estimated interval. */
  predicate RowHasPrevious(f: Frame, points: seq<Point>, i: nat)
    requires i < |points|
  {
    i > 0 && points[i - 1].t > f.eval - f.Matrix()
    && (WindowTotal(f.fn) || points[i - 1].t > f.eval - f.window - f.maxPrev)
  }

  function BirthContribution(f: Frame, points: seq<Point>, i: nat): real
    requires i < |points|
  {
    var v := points[i].v;
    var next := if i + 1 < |points| && points[i + 1].t <= f.eval then points[i + 1].v - v else 0.0;
    if WindowTotal(f.fn) then (if Abs(v) < 10.0 * (Abs(next) + 1.0) then v else 0.0) else 0.0
  }

  function RowAt(f: Frame, points: seq<Point>, i: nat): Row
    requires i < |points|
  {
    var p := points[i];
    var first := FirstOfWindow(f, points, i);
    var hasPrev := RowHasPrevious(f, points, i);
    var diff := Difference(f.fn, if i > 0 then points[i - 1].v else 0.0, p.v);
    var gap := if i > 0 then p.t - points[i - 1].t else 0;
    Row(p.t, p.v, first, hasPrev, diff, gap,
        if first && !hasPrev then BirthContribution(f, points, i) else diff,
        if first && !hasPrev then 0 else gap)
  }

  function Rows(f: Frame, points: seq<Point>, ordinals: seq<nat>): (r: seq<Row>)
    requires forall k :: 0 <= k < |ordinals| ==> ordinals[k] < |points|
    ensures |r| == |ordinals|
  {
    seq(|ordinals|, k requires 0 <= k < |ordinals| => RowAt(f, points, ordinals[k]))
  }

  function Contributions(rows: seq<Row>): (r: seq<real>)
    ensures |r| == |rows|
  {
    seq(|rows|, k requires 0 <= k < |rows| => rows[k].contribution)
  }

  function GapSum(rows: seq<Row>): int {
    if rows == [] then 0 else GapSum(rows[..|rows| - 1]) + rows[|rows| - 1].gapContribution
  }

  /** max(first_has_prev) */
  function AnyFirstHasPrev(rows: seq<Row>): bool {
    exists k :: 0 <= k < |rows| && rows[k].first && rows[k].hasPrev
  }

  /** The row argMax(_, ts) picks; rows are in time order. */
  function Latest(rows: seq<Row>): Row
    requires rows != []
  {
    rows[|rows| - 1]
  }

  /** rangeRollupValueSQL over the rows of one series and step; no rows, no value. */
  function RollupValue(fn: Function, rows: seq<Row>): Option<real> {
    if rows == [] then None
    else
      var hadPrev := if AnyFirstHasPrev(rows) then 1 else 0;
      match fn
      case Increase => Some(Sum(Contributions(rows)))
      case Delta => Some(Sum(Contributions(rows)))
      case Rate =>
        if |rows| + hadPrev < 2 || GapSum(rows) <= 0 then None
        else Some(Sum(Contributions(rows)) / (GapSum(rows) as real / 1000.0))
      case Irate =>
        if (|rows| >= 2 || hadPrev == 1) && Latest(rows).gap > 0
        then Some(Latest(rows).diff / (Latest(rows).gap as real / 1000.0)) else None
      case Idelta =>
        Some(if |rows| >= 2 || hadPrev == 1 then Latest(rows).diff else Latest(rows).v)
  }

  function Ranges(g: Grid, points: seq<Point>, span: int): (r: seq<(int, int)>)
    requires g.Valid()
    ensures |r| == |points|
  {
    seq(|points|, k requires 0 <= k < |points| => PostHogRange(g, points[k].t, span))
  }

  /** The value of one series at step idx, given the interval estimated for it. */
  function SeriesValue(g: Grid, call: Call, maxPrev: int, points: seq<Point>, idx: int): Option<real>
    requires g.Valid()
  {
    var f := Frame(call.fn, g.Eval(idx), call.window, maxPrev, call.lookback);
    RollupValue(call.fn, Rows(f, points, Group(Ranges(g, points, call.window), idx + 1)))
  }

  /** The samples a step is joined to are those of its left-open window, in order. */
  lemma JoinIsWindow(g: Grid, points: seq<Point>, span: int, idx: int)
    requires g.Valid() && Sorted(points) && 0 <= idx < g.count && span >= 0
    ensures FirstAfter(points, g.Eval(idx) - span) <= FirstAfter(points, g.Eval(idx))
    ensures Group(Ranges(g, points, span), idx + 1) ==
            Interval(FirstAfter(points, g.Eval(idx) - span), FirstAfter(points, g.Eval(idx)))
  {
    hide FirstAfter;
    var a, b := FirstAfter(points, g.Eval(idx) - span), FirstAfter(points, g.Eval(idx));
    FirstAfterIsMonotone(points, g.Eval(idx) - span, g.Eval(idx));
    var ranges := Ranges(g, points, span);
    forall k | 0 <= k < |ranges| ensures In(ranges[k], idx + 1) <==> a <= k < b {
      PostHogRangeCovers(g, points[k].t, span, idx);
      LeftOpenMembers(points, g.Eval(idx) - span, g.Eval(idx), k);
    }
    GroupIsInterval(ranges, idx + 1, a, b);
  }

  // ---------------------------------------------------------------- the rows of one window

  /** points[m..n] is the matrix of the frame and points[a..n] its window, not empty. */
  ghost predicate Cut(f: Frame, points: seq<Point>, m: nat, a: nat, n: nat) {
    f.Valid() && Increasing(points) && m <= a < n <= |points|
    && m == FirstAfter(points, f.eval - f.Matrix())
    && a == FirstAfter(points, f.eval - f.window)
    && n == FirstAfter(points, f.eval)
  }

  /** Only the first row of a window is marked first, and it has a previous sample exactly
      when the plan's rule accepts the neighbour; every row keeps its own difference and gap. */
  lemma WindowRows(f: Frame, points: seq<Point>, m: nat, a: nat, n: nat)
    requires Cut(f, points, m, a, n)
    ensures var rows := Rows(f, points, Interval(a, n));
      (forall k :: 0 <= k < |rows| ==> rows[k] == RowAt(f, points, a + k))
      && (forall k :: 0 <= k < |rows| ==> (rows[k].first <==> k == 0))
      && (AnyFirstHasPrev(rows) <==> RowHasPrevious(f, points, a))
  {
    hide FirstAfter;
    FirstAfterSplits(points, f.eval - f.window);
    var rows := Rows(f, points, Interval(a, n));
    assert rows[0] == RowAt(f, points, a);
  }

  function Begin(f: Frame, points: seq<Point>, a: nat): nat
    requires a < |points|
  {
    if RowHasPrevious(f, points, a) then a - 1 else a
  }

  /** For rate the contributions of the rows add up to the rise from the begin sample, and
      their gaps to the time since it. */
  lemma RateRows(f: Frame, points: seq<Point>, m: nat, a: nat, n: nat)
    requires Cut(f, points, m, a, n) && f.fn.Rate?
    ensures var rows := Rows(f, points, Interval(a, n));
      var begin := Begin(f, points, a);
      Sum(Contributions(rows)) == Rise(points, points[begin].v, begin, n)
      && GapSum(rows) == points[n - 1].t - points[begin].t
  {
    hide FirstAfter, Sum;
    WindowRows(f, points, m, a, n);
    var rows := Rows(f, points, Interval(a, n));
    var begin := Begin(f, points, a);
    FirstStepFromItself(points, begin, a);
    TotalIsSumOfDifferences(Rate, points, Contributions(rows), points[begin].v, begin, a, n);
    GapsTelescope(points, rows, begin, a, n);
  }

  lemma FirstStepFromItself(points: seq<Point>, begin: nat, a: nat)
    requires begin <= a < |points| && a <= begin + 1
    ensures Rise(points, points[begin].v, begin, a + 1) ==
            if begin == a then 0.0 else Step(points[begin].v, points[a].v)
  {
    assert Rise(points, points[begin].v, begin, begin) == 0.0;
    assert Rise(points, points[begin].v, begin, begin + 1) == 0.0 + Step(points[begin].v, points[begin].v);
  }

  lemma {:induction false} GapsTelescope(points: seq<Point>, rows: seq<Row>, begin: nat, a: nat, k: nat)
    requires begin <= a < k <= |points| && a <= begin + 1 && |rows| == k - a
    requires rows[0].gapContribution == points[a].t - points[begin].t
    requires forall j :: 1 <= j < |rows| ==> rows[j].gapContribution == points[a + j].t - points[a + j - 1].t
    ensures GapSum(rows) == points[k - 1].t - points[begin].t
  {
    if k == a + 1 {
      assert GapSum(rows[..0]) == 0;
    } else {
      GapsTelescope(points, rows[..|rows| - 1], begin, a, k - 1);
    }
  }

  // ---------------------------------------------------------------- rate, irate, idelta

  /** The reference value for the frame. */
  function ReferenceIn(f: Frame, points: seq<Point>, m: nat, a: nat, n: nat): Option<real>
    requires m <= a <= n <= |points|
  {
    Value(f.fn, points[m..n], a - m, f.eval - f.window, f.maxPrev, f.lookback)
  }

  lemma PreviousRulesAgree(f: Frame, points: seq<Point>, m: nat, a: nat, n: nat)
    requires Cut(f, points, m, a, n) && !WindowTotal(f.fn)
    ensures RowHasPrevious(f, points, a) <==>
            HasPrevious(f.fn, points[m..n], a - m, f.eval - f.window, f.maxPrev, f.lookback)
    ensures RowHasPrevious(f, points, a) ==> a > m
  {
    hide FirstAfter;
    FirstAfterSplits(points, f.eval - f.Matrix());
  }

  lemma RateIsReference(f: Frame, points: seq<Point>, m: nat, a: nat, n: nat)
    requires Cut(f, points, m, a, n) && f.fn.Rate?
    ensures RollupValue(f.fn, Rows(f, points, Interval(a, n))) == ReferenceIn(f, points, m, a, n)
  {
    hide FirstAfter, Rise, Sum, GapSum, AnyFirstHasPrev, RowHasPrevious, HasPrevious, Rows;
    WindowRows(f, points, m, a, n);
    PreviousRulesAgree(f, points, m, a, n);
    var begin := Begin(f, points, a);
    RateRows(f, points, m, a, n);
    RiseInSlice(points, m, n, points[begin].v, begin - m, n - m);
  }

  lemma LastRow(f: Frame, points: seq<Point>, m: nat, a: nat, n: nat)
    requires Cut(f, points, m, a, n)
    ensures var rows := Rows(f, points, Interval(a, n));
            |rows| == n - a && Latest(rows).diff == RowAt(f, points, n - 1).diff
            && Latest(rows).gap == RowAt(f, points, n - 1).gap && Latest(rows).v == points[n - 1].v
  {
    hide FirstAfter, RowHasPrevious;
    assert Rows(f, points, Interval(a, n))[n - a - 1] == RowAt(f, points, n - 1);
  }

  lemma LastPairIsReference(f: Frame, points: seq<Point>, m: nat, a: nat, n: nat)
    requires Cut(f, points, m, a, n) && (f.fn.Irate? || f.fn.Idelta?)
    ensures RollupValue(f.fn, Rows(f, points, Interval(a, n))) == ReferenceIn(f, points, m, a, n)
  {
    hide FirstAfter, Step, AnyFirstHasPrev, RowHasPrevious, HasPrevious, Rows, BirthContribution, BirthBase, Latest;
    WindowRows(f, points, m, a, n);
    PreviousRulesAgree(f, points, m, a, n);
    LastRow(f, points, m, a, n);
  }

  /** Given the same interval estimate, rate, irate and idelta are the reference values on
      every series. */
  lemma InstantRowsAreReference(f: Frame, points: seq<Point>, m: nat, a: nat, n: nat)
    requires Cut(f, points, m, a, n) && !WindowTotal(f.fn)
    ensures RollupValue(f.fn, Rows(f, points, Interval(a, n))) == ReferenceIn(f, points, m, a, n)
  {
    if f.fn.Rate? {
      RateIsReference(f, points, m, a, n);
    } else {
      LastPairIsReference(f, points, m, a, n);
    }
  }

  // ---------------------------------------------------------------- increase and delta

  /** The rule of the plan and the rule of the reference pick the same previous sample. */
  predicate SamePrevious(f: Frame, points: seq<Point>, m: nat, a: nat)
    requires m <= a < |points|
  {
    a == m || points[a - 1].t > f.eval - f.window - f.maxPrev || points[a].t - points[a - 1].t < f.lookback
  }

  /** The sum of the rows is the total from the plan's own begin and base. */
  lemma TotalRows(f: Frame, points: seq<Point>, m: nat, a: nat, n: nat)
    requires Cut(f, points, m, a, n) && WindowTotal(f.fn)
    ensures RollupValue(f.fn, Rows(f, points, Interval(a, n))) ==
            Some(if a > m then Total(f.fn, points, points[a - 1].v, a - 1, n)
                 else Total(f.fn, points, BirthBase(points[m..n], a - m), a, n))
  {
    hide FirstAfter, Sum;
    FirstAfterSplits(points, f.eval - f.Matrix());
    FirstAfterSplits(points, f.eval);
    WindowRows(f, points, m, a, n);
    var rows := Rows(f, points, Interval(a, n));
    var base := if a > m then points[a - 1].v else BirthBase(points[m..n], a - m);
    var begin := if a > m then a - 1 else a;
    FirstTotal(f.fn, points, base, begin, a);
    TotalIsSumOfDifferences(f.fn, points, Contributions(rows), base, begin, a, n);
  }

  /** The total over the first sample of a window: its difference to its predecessor, or to
      the base it is born from. */
  lemma FirstTotal(fn: Function, points: seq<Point>, base: real, begin: nat, a: nat)
    requires begin <= a < |points| && a <= begin + 1
    requires begin < a ==> base == points[begin].v
    ensures Total(fn, points, base, begin, a + 1) == Difference(fn, base, points[a].v)
  {
    assert Rise(points, base, begin, begin) == 0.0;
    assert Rise(points, base, begin, begin + 1) == 0.0 + Step(base, points[begin].v);
  }

  /** Past the first sample the total no longer depends on where it began. */
  lemma {:induction false} TotalTail(fn: Function, points: seq<Point>, base: real, begin: nat, a: nat, k: nat)
    requires begin <= a < k <= |points| && a <= begin + 1
    requires begin < a ==> base == points[begin].v
    ensures Total(fn, points, base, begin, k) ==
            Difference(fn, base, points[a].v) + Total(fn, points, points[a].v, a, k)
  {
    FirstTotal(fn, points, base, begin, a);
    FirstTotal(fn, points, points[a].v, a, a);
    if k > a + 1 {
      TotalTail(fn, points, base, begin, a, k - 1);
    }
  }

  /** The reference total of the frame. */
  lemma ReferenceTotal(f: Frame, points: seq<Point>, m: nat, a: nat, n: nat)
    requires Cut(f, points, m, a, n) && WindowTotal(f.fn)
    ensures ReferenceIn(f, points, m, a, n) ==
            Some(if a > m && SamePrevious(f, points, m, a) then Total(f.fn, points, points[a - 1].v, a - 1, n)
                 else Total(f.fn, points, BirthBase(points[m..n], a - m), a, n))
  {
    hide FirstAfter, Rise, Step, BirthBase;
    var base := if a > m && SamePrevious(f, points, m, a) then points[a - 1].v else BirthBase(points[m..n], a - m);
    var begin := if a > m && SamePrevious(f, points, m, a) then a - 1 else a;
    RiseInSlice(points, m, n, base, begin - m, n - m);
  }

  /** Exactly when increase and delta meet the reference: when the previous sample in the
      matrix is one the reference accepts, or when taking it makes no difference to the first
      sample's contribution. */
  lemma TotalRowsAreReferenceIff(f: Frame, points: seq<Point>, m: nat, a: nat, n: nat)
    requires Cut(f, points, m, a, n) && WindowTotal(f.fn)
    ensures RollupValue(f.fn, Rows(f, points, Interval(a, n))) == ReferenceIn(f, points, m, a, n)
       <==> SamePrevious(f, points, m, a)
            || Difference(f.fn, points[a - 1].v, points[a].v)
               == Difference(f.fn, BirthBase(points[m..n], a - m), points[a].v)
  {
    hide FirstAfter, Total, Difference, BirthBase, RollupValue, ReferenceIn, Rows;
    TotalRows(f, points, m, a, n);
    ReferenceTotal(f, points, m, a, n);
    if a > m {
      TotalTail(f.fn, points, points[a - 1].v, a - 1, a, n);
      TotalTail(f.fn, points, BirthBase(points[m..n], a - m), a, a, n);
    }
  }

  /** A series whose neighbouring samples are all closer than the lookback. */
  ghost predicate CloseGaps(points: seq<Point>, lookback: int) {
    forall i :: 0 < i < |points| ==> points[i].t - points[i - 1].t < lookback
  }

  // ---------------------------------------------------------------- whole series

  /** Main result, at every step of the grid and for the estimate the plan made: rate, irate
      and idelta agree with the reference on every series; increase and delta on every series
      without a gap as long as the lookback. */
  lemma SeriesValueIsReference(g: Grid, call: Call, maxPrev: int, points: seq<Point>, idx: int)
    requires g.Valid() && call.Valid() && call.window > 0 && maxPrev <= call.lookback
    requires Increasing(points) && 0 <= idx < g.count
    requires WindowTotal(call.fn) ==> CloseGaps(points, call.lookback)
    ensures var eval := g.Eval(idx);
      var matrix := LeftOpen(points, eval - call.Matrix(), eval);
      SeriesValue(g, call, maxPrev, points, idx) ==
      Value(call.fn, matrix, FirstAfter(matrix, eval - call.window), eval - call.window, maxPrev, call.lookback)
  {
    hide FirstAfter, RollupValue, Value, Rows, Group, Ranges, Total, Difference, BirthBase;
    var eval := g.Eval(idx);
    var f := Frame(call.fn, eval, call.window, maxPrev, call.lookback);
    JoinIsWindow(g, points, call.window, idx);
    var m, a, n := FirstAfter(points, eval - call.Matrix()), FirstAfter(points, eval - call.window),
        FirstAfter(points, eval);
    FirstAfterIsMonotone(points, eval - call.Matrix(), eval - call.window);
    FirstAfterInSlice(points, m, n, eval - call.window);
    if a == n {
      NothingInWindow(f, points, m, n);
    } else if WindowTotal(call.fn) {
      TotalRowsAreReferenceIff(f, points, m, a, n);
    } else {
      InstantRowsAreReference(f, points, m, a, n);
    }
  }

  lemma NothingInWindow(f: Frame, points: seq<Point>, m: nat, n: nat)
    requires m <= n <= |points|
    ensures RollupValue(f.fn, Rows(f, points, Interval(n, n))) == None
    ensures ReferenceIn(f, points, m, n, n) == None
  {
  }

  // ---------------------------------------------------------------- the estimate

  /** The plan's estimate: the floor of the interpolated 0.6 quantile over all gaps of the
      series, 0 without gaps. */
  function SeriesGap(points: seq<Point>): int {
    if |points| < 2 then 0
    else
      var gaps := SortInts(Intervals(points, 1));
      var pos := 0.6 * (|gaps| - 1) as real;
      var index := pos.Floor;
      if index + 1 < |gaps|
      then (gaps[index] as real + (gaps[index + 1] - gaps[index]) as real * (pos - index as real)).Floor
      else gaps[index]
  }

  function PlanMaxPrev(call: Call, points: seq<Point>): int {
    var gap := SeriesGap(points);
    Min(if gap <= 0 then call.step else MarginSql(gap), call.lookback)
  }

  /** The estimates agree while the last 20 gaps are all the gaps: the floor the plan takes of
      the interpolated quantile is the truncation of the reference. */
  lemma EstimatesAgree(call: Call, points: seq<Point>)
    requires Sorted(points) && |points| <= 21
    ensures PlanMaxPrev(call, points) == MaxPrevious(call, points)
  {
    hide SortInts, Intervals, Quantile06, Margin, MarginSql;
    if |points| >= 2 {
      hide SeriesGap;
      SeriesGapIsQuantile(points);
      MarginSqlIsMargin(SeriesGap(points));
    }
  }

  lemma SeriesGapIsQuantile(points: seq<Point>)
    requires Sorted(points) && |points| >= 2
    ensures SeriesGap(points) == Quantile06(SortInts(Intervals(points, 1)))
  {
    hide SortInts, Interpolate;
    var gaps := SortInts(Intervals(points, 1));
    SortIntsSorts(Intervals(points, 1));
    var pos := 0.6 * (|gaps| - 1) as real;
    var index := pos.Floor;
    if index + 1 < |gaps| {
      InterpolateIs(gaps[index], gaps[index + 1], pos - index as real);
    }
  }

  /** Samples exactly d apart. */
  ghost predicate Regular(points: seq<Point>, d: int) {
    d > 0 && forall i :: 0 < i < |points| ==> points[i].t - points[i - 1].t == d
  }

  ghost predicate Constant(s: seq<int>, d: int) { forall i :: 0 <= i < |s| ==> s[i] == d }

  lemma ConstantQuantile(s: seq<int>, d: int)
    requires Constant(s, d) && |s| > 0
    ensures Constant(SortInts(s), d) && Quantile06(SortInts(s)) == d
  {
    hide SortInts, Interpolate;
    SortIntsSorts(s);
    var r := SortInts(s);
    forall i | 0 <= i < |r| ensures r[i] == d {
      assert r[i] in multiset(r);
      assert r[i] in s;
    }
    InterpolateFlat(d, 0.6 * (|r| - 1) as real - (0.6 * (|r| - 1) as real).Floor as real);
  }

  lemma InterpolateFlat(d: int, fraction: real)
    ensures Interpolate(d, d, fraction) == d
    ensures (d as real + (d - d) as real * fraction).Floor == d
  {
    assert (d - d) as real == 0.0;
    assert 0.0 * fraction == 0.0;
    assert (d as real + 0.0).Floor == d;
  }

  lemma {:induction false} RegularIncreases(points: seq<Point>, d: int)
    requires Regular(points, d)
    ensures Increasing(points)
  {
    if |points| > 1 {
      var n := |points| - 1;
      RegularIncreases(points[..n], d);
      forall i | 0 <= i < n ensures points[i].t < points[n].t {
        assert points[i].t <= points[n - 1].t;
      }
    }
  }

  lemma WindowIsRegular(points: seq<Point>, lo: int, hi: int, d: int)
    requires lo <= hi && Regular(points, d)
    ensures Regular(LeftOpen(points, lo, hi), d)
    ensures |LeftOpen(points, lo, hi)| <= |points|
  {
    hide FirstAfter;
    FirstAfterIsMonotone(points, lo, hi);
  }

  lemma SampleIntervalIsRegular(points: seq<Point>, d: int, fallback: int)
    requires Regular(points, d) && |points| >= 2
    ensures SampleInterval(points, fallback) == Margin(d)
  {
    hide Quantile06, SortInts, Margin;
    ConstantQuantile(Intervals(points, Max(1, |points| - 20)), d);
  }

  lemma SeriesGapIsRegular(points: seq<Point>, d: int)
    requires Regular(points, d) && |points| >= 2
    ensures SeriesGap(points) == d
  {
    hide SortInts, Quantile06;
    ConstantQuantile(Intervals(points, 1), d);
    InterpolateFlat(d, 0.6 * (|points| - 2) as real - (0.6 * (|points| - 2) as real).Floor as real);
  }

  /** With fewer than two points there is no previous sample for the estimate to judge. */
  lemma EstimateIdle(fn: Function, matrix: seq<Point>, first: nat, start: int, x: int, y: int, lookback: int)
    requires first <= |matrix| < 2
    ensures Value(fn, matrix, first, start, x, lookback) == Value(fn, matrix, first, start, y, lookback)
  {
  }

  // ---------------------------------------------------------------- against the reference outright

  /** The previous sample the plan takes for a window that starts at matrix[first]. */
  predicate PlanTakesPrevious(fn: Function, matrix: seq<Point>, first: nat, start: int, maxPrev: int) {
    0 < first < |matrix| && (WindowTotal(fn) || matrix[first - 1].t > start - maxPrev)
  }

  /** With and without the sample before the window the value is the same. */
  predicate PreviousIsIdle(fn: Function, matrix: seq<Point>, first: nat)
    requires 0 < first < |matrix|
  {
    var n := |matrix|;
    match fn
    case Rate =>
      n - first >= 2 && Seconds(matrix, first) != 0.0 && Seconds(matrix, first - 1) != 0.0
      && Rise(matrix, matrix[first - 1].v, first - 1, n) / Seconds(matrix, first - 1)
         == Rise(matrix, matrix[first].v, first, n) / Seconds(matrix, first)
    case Irate => n - first >= 2
    case Idelta => n - first >= 2 || matrix[first - 1].v == 0.0
    case _ =>
      Difference(fn, matrix[first - 1].v, matrix[first].v) == Difference(fn, BirthBase(matrix, first), matrix[first].v)
  }

  /** Two estimates give one value exactly when they agree on the sample before the window or
      that sample makes no difference. */
  lemma InstantEstimatesAgreeIff(fn: Function, matrix: seq<Point>, first: nat, start: int, x: int, y: int,
                                 lookback: int)
    requires !WindowTotal(fn) && Increasing(matrix) && first < |matrix|
    ensures Value(fn, matrix, first, start, x, lookback) == Value(fn, matrix, first, start, y, lookback) <==>
            (PlanTakesPrevious(fn, matrix, first, start, x) <==> HasPrevious(fn, matrix, first, start, y, lookback))
            || PreviousIsIdle(fn, matrix, first)
  {
    hide Rise, Step;
    if first > 0 && first < |matrix| - 1 {
      assert matrix[first - 1].t < matrix[first].t < matrix[|matrix| - 1].t;
    }
  }

  /** increase and delta never read the estimate of the plan. */
  lemma TotalsIgnoreEstimate(g: Grid, call: Call, points: seq<Point>, idx: int, x: int, y: int)
    requires g.Valid() && WindowTotal(call.fn)
    ensures SeriesValue(g, call, x, points, idx) == SeriesValue(g, call, y, points, idx)
  {
    var f := Frame(call.fn, g.Eval(idx), call.window, x, call.lookback);
    var h := f.(maxPrev := y);
    var ordinals := Group(Ranges(g, points, call.window), idx + 1);
    assert Rows(f, points, ordinals) == Rows(h, points, ordinals);
  }

  lemma TotalIff(g: Grid, call: Call, points: seq<Point>, idx: int, y: int)
    requires g.Valid() && call.Valid() && call.window > 0 && WindowTotal(call.fn) && y <= call.lookback
    requires Increasing(points) && 0 <= idx < g.count
    ensures var start := g.Eval(idx) - call.window;
      var matrix := LeftOpen(points, g.Eval(idx) - call.Matrix(), g.Eval(idx));
      var first := FirstAfter(matrix, start);
      SeriesValue(g, call, y, points, idx) == Value(call.fn, matrix, first, start, y, call.lookback) <==>
      first == |matrix|
      || (PlanTakesPrevious(call.fn, matrix, first, start, y) <==>
          HasPrevious(call.fn, matrix, first, start, y, call.lookback))
      || PreviousIsIdle(call.fn, matrix, first)
  {
    hide FirstAfter, RollupValue, Value, Rows, Group, Ranges, Total, Difference, BirthBase;
    var eval := g.Eval(idx);
    var f := Frame(call.fn, eval, call.window, y, call.lookback);
    JoinIsWindow(g, points, call.window, idx);
    var m, a, n := FirstAfter(points, eval - call.Matrix()), FirstAfter(points, eval - call.window),
        FirstAfter(points, eval);
    FirstAfterIsMonotone(points, eval - call.Matrix(), eval - call.window);
    FirstAfterInSlice(points, m, n, eval - call.window);
    if a == n {
      NothingInWindow(f, points, m, n);
    } else {
      TotalRowsAreReferenceIff(f, points, m, a, n);
    }
  }

  /** Main result, for every function, series and step: the plan, with its one estimate for
      the series, gives the reference value, with its estimate for the step, exactly when the
      window is empty, or both take the sample before the window or neither does, or that
      sample makes no difference. */
  lemma PlanIsReferenceIff(g: Grid, call: Call, series: seq<Point>, idx: int)
    requires g.Valid() && call.Valid() && call.window > 0 && 0 <= idx < g.count
    requires Increasing(series)
    ensures var eval, points := g.Eval(idx), Fetched(g, call, series);
      var start, matrix := eval - call.window, LeftOpen(series, eval - call.Matrix(), eval);
      var first := FirstAfter(matrix, start);
      SeriesValue(g, call, PlanMaxPrev(call, points), points, idx) == Reference(call, series, eval) <==>
      first == |matrix|
      || (PlanTakesPrevious(call.fn, matrix, first, start, PlanMaxPrev(call, points)) <==>
          HasPrevious(call.fn, matrix, first, start, MaxPrevious(call, matrix), call.lookback))
      || PreviousIsIdle(call.fn, matrix, first)
  {
    hide FirstAfter, SeriesValue, Value, PlanMaxPrev, MaxPrevious, PreviousIsIdle, HasPrevious;
    var eval, points := g.Eval(idx), Fetched(g, call, series);
    var start, matrix := eval - call.window, LeftOpen(series, eval - call.Matrix(), eval);
    var first := FirstAfter(matrix, start);
    FetchedMatrix(g, call, series, idx);
    var x, y := PlanMaxPrev(call, points), MaxPrevious(call, matrix);
    EstimatesAreBounded(call, points, matrix);
    if WindowTotal(call.fn) {
      TotalsIgnoreEstimate(g, call, points, idx, x, y);
      TotalIff(g, call, points, idx, y);
    } else {
      SeriesValueIsReference(g, call, x, points, idx);
      if first < |matrix| {
        InstantEstimatesAgreeIff(call.fn, matrix, first, start, x, y, call.lookback);
      } else {
        NoValue(call.fn, matrix, start, x, y, call.lookback);
      }
    }
  }

  lemma EstimatesAreBounded(call: Call, points: seq<Point>, matrix: seq<Point>)
    ensures PlanMaxPrev(call, points) <= call.lookback && MaxPrevious(call, matrix) <= call.lookback
  {
  }

  lemma NoValue(fn: Function, matrix: seq<Point>, start: int, x: int, y: int, lookback: int)
    ensures Value(fn, matrix, |matrix|, start, x, lookback) == Value(fn, matrix, |matrix|, start, y, lookback)
  {
  }

  lemma WindowIncreases(points: seq<Point>, lo: int, hi: int)
    requires lo <= hi && Increasing(points)
    ensures Increasing(LeftOpen(points, lo, hi))
  {
    hide FirstAfter;
    FirstAfterIsMonotone(points, lo, hi);
  }

  /** The samples read keep the matrix of every step. */
  lemma FetchedMatrix(g: Grid, call: Call, series: seq<Point>, idx: int)
    requires g.Valid() && call.Valid() && 0 <= idx < g.count && Increasing(series)
    ensures var eval, points := g.Eval(idx), Fetched(g, call, series);
      Increasing(points) && LeftOpen(points, eval - call.Matrix(), eval) == LeftOpen(series, eval - call.Matrix(), eval)
      && Increasing(LeftOpen(series, eval - call.Matrix(), eval))
  {
    hide FirstAfter;
    StepInRequest(g, idx);
    LeftOpenOfLeftOpen(series, g.start - g.offset - call.Matrix() - 1, g.end - g.offset,
                       g.Eval(idx) - call.Matrix(), g.Eval(idx));
    WindowIncreases(series, g.start - g.offset - call.Matrix() - 1, g.end - g.offset);
    WindowIncreases(series, g.Eval(idx) - call.Matrix(), g.Eval(idx));
  }

  /** A previous sample the reference takes lies before the window in the matrix. */
  lemma CloseMatrix(call: Call, series: seq<Point>, eval: int)
    requires call.Valid() && CloseGaps(series, call.lookback)
    ensures CloseGaps(LeftOpen(series, eval - call.Matrix(), eval), call.lookback)
  {
    hide FirstAfter;
    FirstAfterIsMonotone(series, eval - call.Matrix(), eval);
  }

  /** increase and delta are the reference outright on every series without a gap as long as
      the lookback, however irregular. */
  lemma TotalsAreReference(g: Grid, call: Call, series: seq<Point>, idx: int)
    requires g.Valid() && call.Valid() && call.window > 0 && 0 <= idx < g.count
    requires WindowTotal(call.fn) && Increasing(series) && CloseGaps(series, call.lookback)
    ensures var points := Fetched(g, call, series);
      SeriesValue(g, call, PlanMaxPrev(call, points), points, idx) == Reference(call, series, g.Eval(idx))
  {
    hide FirstAfter, SeriesValue, Reference, PlanMaxPrev, MaxPrevious, PreviousIsIdle;
    PlanIsReferenceIff(g, call, series, idx);
    CloseMatrix(call, series, g.Eval(idx));
  }

  /** On a regularly scraped series the one estimate of the plan and the estimate of every
      step coincide wherever they matter, so the plan is the reference outright; increase and
      delta need the scrape interval to be below the lookback. */
  lemma RegularSeriesIsReference(g: Grid, call: Call, series: seq<Point>, d: int, idx: int)
    requires g.Valid() && call.Valid() && call.window > 0 && 0 <= idx < g.count
    requires Regular(series, d) && (WindowTotal(call.fn) ==> d < call.lookback)
    ensures var points := Fetched(g, call, series);
      SeriesValue(g, call, PlanMaxPrev(call, points), points, idx) == Reference(call, series, g.Eval(idx))
  {
    hide FirstAfter, SeriesValue, Value, SeriesGap, SampleInterval, Margin, MarginSql;
    MarginSqlIsMargin(d);
    RegularIncreases(series, d);
    var points := Fetched(g, call, series);
    StepInRequest(g, 0);
    WindowIsRegular(series, g.start - g.offset - call.Matrix() - 1, g.end - g.offset, d);
    RegularIncreases(points, d);
    FetchedKeepsWindows(g, call, series, idx);
    var eval := g.Eval(idx);
    SeriesValueIsReference(g, call, PlanMaxPrev(call, points), points, idx);
    var matrix := LeftOpen(points, eval - call.Matrix(), eval);
    var start := eval - call.window;
    WindowIsRegular(points, eval - call.Matrix(), eval, d);
    if |matrix| >= 2 {
      SampleIntervalIsRegular(matrix, d, call.step);
      SeriesGapIsRegular(points, d);
    } else {
      EstimateIdle(call.fn, matrix, FirstAfter(matrix, start), start, PlanMaxPrev(call, points),
          MaxPrevious(call, matrix), call.lookback);
    }
  }

  const SPARSE := [Point(0, 50.0), Point(1, 50.0), Point(2, 50.0), Point(3, 50.0), Point(13, 51.0)]

  lemma SparseGaps(gaps: seq<int>)
    requires gaps == [1, 1, 1, 10]
    ensures SortInts(gaps) == gaps && Quantile06(gaps) == 1
  {
    assert gaps[1..] == [1, 1, 10] && gaps[1..][1..] == [1, 10] && gaps[1..][1..][1..] == [10];
    assert SortInts([10]) == [10];
    assert SortInts([1, 10]) == [1, 10];
    assert SortInts([1, 1, 10]) == [1, 1, 10];
    InterpolateFlat(1, 0.6 * 3.0 - 1.0);
  }

  lemma SparseEstimate(call: Call)
    requires call.lookback == 10
    ensures MaxPrevious(call, SPARSE) == 5 && PlanMaxPrev(call, SPARSE) == 5
  {
    hide SortInts, Quantile06, Interpolate;
    var gaps := Intervals(SPARSE, 1);
    assert gaps == [1, 1, 1, 10];
    SparseGaps(gaps);
    InterpolateFlat(1, 0.6 * 3.0 - 1.0);
  }

  lemma SparseRows(f: Frame)
    requires f == Frame(Increase, 14, 5, 5, 10)
    ensures Cut(f, SPARSE, 0, 4, 5)
    ensures RollupValue(Increase, Rows(f, SPARSE, Interval(4, 5))) == Some(1.0)
    ensures ReferenceIn(f, SPARSE, 0, 4, 5) == Some(0.0)
  {
    hide RollupValue, Rows, ReferenceIn;
    FirstAfterIsUnique(SPARSE, -1, 0);
    FirstAfterIsUnique(SPARSE, 9, 4);
    FirstAfterIsUnique(SPARSE, 14, 5);
    hide FirstAfter;
    TotalRows(f, SPARSE, 0, 4, 5);
    ReferenceTotal(f, SPARSE, 0, 4, 5);
    TotalTail(Increase, SPARSE, 50.0, 3, 4, 5);
    FirstTotal(Increase, SPARSE, 51.0, 4, 4);
    assert BirthBase(SPARSE[0..5], 4) == 51.0;
  }

  lemma SparseWindows(g: Grid, call: Call)
    requires g == Grid(14, 1, 1, 14, 0) && call == Call(Increase, 5, 1, 10)
    ensures Fetched(g, call, SPARSE) == SPARSE && LeftOpen(SPARSE, -1, 14) == SPARSE
    ensures FirstAfter(SPARSE, 9) == 4 && FirstAfter(SPARSE, 14) == 5
  {
    FirstAfterIsUnique(SPARSE, -2, 0);
    FirstAfterIsUnique(SPARSE, -1, 0);
    FirstAfterIsUnique(SPARSE, 9, 4);
    FirstAfterIsUnique(SPARSE, 14, 5);
    hide FirstAfter;
    assert SPARSE[0..5] == SPARSE;
  }

  /** The plan's value and the reference of one step in terms of its window. */
  lemma StepValues(g: Grid, call: Call, points: seq<Point>, idx: int, x: int)
    requires g.Valid() && call.Valid() && call.window > 0 && 0 <= idx < g.count && Increasing(points)
    ensures var eval := g.Eval(idx);
      var a, n := FirstAfter(points, eval - call.window), FirstAfter(points, eval);
      var m := FirstAfter(points, eval - call.Matrix());
      m <= a <= n
      && SeriesValue(g, call, x, points, idx) ==
         RollupValue(call.fn, Rows(Frame(call.fn, eval, call.window, x, call.lookback), points, Interval(a, n)))
      && Reference(call, points, eval) ==
         ReferenceIn(Frame(call.fn, eval, call.window, MaxPrevious(call, points[m..n]), call.lookback), points, m, a, n)
  {
    hide FirstAfter, MaxPrevious, RollupValue, Rows, Group, Ranges, Value;
    var eval := g.Eval(idx);
    JoinIsWindow(g, points, call.window, idx);
    FirstAfterIsMonotone(points, eval - call.Matrix(), eval - call.window);
    FirstAfterInSlice(points, FirstAfter(points, eval - call.Matrix()), FirstAfter(points, eval), eval - call.window);
  }

  /** The plan really differs on a gap as long as the lookback: at 14, with a window of 5, a
      lookback of 10 and an estimate of 5 on both sides, the reference drops the sample at 3
      and the plan takes it. */
  lemma LongGapExample()
    ensures var g, call := Grid(14, 1, 1, 14, 0), Call(Increase, 5, 1, 10);
      var points := Fetched(g, call, SPARSE);
      PlanMaxPrev(call, points) == MaxPrevious(call, SPARSE) == 5
      && SeriesValue(g, call, PlanMaxPrev(call, points), points, 0) == Some(1.0)
      && Reference(call, SPARSE, g.Eval(0)) == Some(0.0)
  {
    hide PlanMaxPrev, MaxPrevious, RollupValue, Rows, FirstAfter, LeftOpen, Fetched, SeriesValue, Reference,
         ReferenceIn;
    var g, call := Grid(14, 1, 1, 14, 0), Call(Increase, 5, 1, 10);
    SparseEstimate(call);
    SparseWindows(g, call);
    assert SPARSE[0..5] == SPARSE;
    SparseRows(Frame(Increase, 14, 5, 5, 10));
    StepValues(g, call, SPARSE, 0, 5);
  }

  const LATE_BURST := [Point(0, 1.0), Point(10, 2.0), Point(11, 3.0), Point(12, 4.0), Point(13, 5.0)]

  lemma BurstGaps(gaps: seq<int>)
    requires gaps == [10, 1, 1, 1]
    ensures SortInts(gaps) == [1, 1, 1, 10]
  {
    assert gaps[1..] == [1, 1, 1] && gaps[1..][1..] == [1, 1] && gaps[1..][1..][1..] == [1];
    assert SortInts([1]) == [1];
    assert SortInts([1, 1]) == [1, 1];
    assert SortInts([1, 1, 1]) == [1, 1, 1];
  }

  lemma BurstEstimates(call: Call)
    requires call.lookback == 100
    ensures PlanMaxPrev(call, LATE_BURST) == 5
    ensures MaxPrevious(call, LATE_BURST[..2]) == 50
  {
    hide SortInts, Interpolate;
    assert Intervals(LATE_BURST, 1) == [10, 1, 1, 1];
    BurstGaps([10, 1, 1, 1]);
    InterpolateFlat(1, 0.6 * 3.0 - 1.0);
    assert Intervals(LATE_BURST[..2], 1) == [10];
    ConstantQuantile([10], 10);
  }

  lemma BurstWindows(g: Grid, call: Call)
    requires g == Grid(10, 1, 4, 13, 0) && call.window == 5 && call.step == 1 && call.lookback == 100
    ensures Fetched(g, call, LATE_BURST) == LATE_BURST && LeftOpen(LATE_BURST, -95, 10) == LATE_BURST[..2]
    ensures FirstAfter(LATE_BURST[..2], 5) == 1
  {
    FirstAfterIsUnique(LATE_BURST, -96, 0);
    FirstAfterIsUnique(LATE_BURST, -95, 0);
    FirstAfterIsUnique(LATE_BURST, 10, 2);
    FirstAfterIsUnique(LATE_BURST, 13, 5);
    FirstAfterIsUnique(LATE_BURST[..2], 5, 1);
    hide FirstAfter;
    assert LATE_BURST[0..5] == LATE_BURST;
  }

  /** rate, irate and idelta differ where samples outside the matrix of a step change the
      estimate of the series: at 10, with a window of 5, the step alone estimates 50 and takes
      the sample at 0, while the burst after it makes the plan estimate 5 and leave it out. */
  lemma LateBurstExample(fn: Function)
    requires !WindowTotal(fn)
    ensures var g, call := Grid(10, 1, 4, 13, 0), Call(fn, 5, 1, 100);
      var points := Fetched(g, call, LATE_BURST);
      SeriesValue(g, call, PlanMaxPrev(call, points), points, 0) != Reference(call, LATE_BURST, g.Eval(0))
  {
    hide SeriesValue, Reference, PlanMaxPrev, MaxPrevious, FirstAfter, LeftOpen, Fetched, Rise;
    var g, call := Grid(10, 1, 4, 13, 0), Call(fn, 5, 1, 100);
    BurstEstimates(call);
    BurstWindows(g, call);
    PlanIsReferenceIff(g, call, LATE_BURST, 0);
  }

  // ---------------------------------------------------------------- sum over series

  /** The contribution rows of one series at one step, as the summing form of the plan reads
      them, without a value per series. */
  function SeriesContributions(g: Grid, call: Call, points: seq<Point>, idx: int): seq<real>
    requires g.Valid()
  {
    var f := Frame(call.fn, g.Eval(idx), call.window, PlanMaxPrev(call, points), call.lookback);
    Contributions(Rows(f, points, Group(Ranges(g, points, call.window), idx + 1)))
  }

  function GroupContributions(g: Grid, call: Call, group: seq<seq<Point>>, idx: int): seq<real>
    requires g.Valid() && g.count > 0 && call.Valid()
  {
    if group == [] then []
    else
      var n := |group| - 1;
      GroupContributions(g, call, group[..n], idx) + SeriesContributions(g, call, Fetched(g, call, group[n]), idx)
  }

  /** The sum of the values the plan computes series by series. */
  function SumOfValues(g: Grid, call: Call, group: seq<seq<Point>>, idx: int): Option<real>
    requires g.Valid() && g.count > 0 && call.Valid()
  {
    if group == [] then None
    else
      var points := Fetched(g, call, group[|group| - 1]);
      Plus(SumOfValues(g, call, group[..|group| - 1], idx),
           SeriesValue(g, call, PlanMaxPrev(call, points), points, idx))
  }

  lemma OneSeriesSum(g: Grid, call: Call, points: seq<Point>, idx: int)
    requires g.Valid() && WindowTotal(call.fn)
    ensures SumOfRows(SeriesContributions(g, call, points, idx)) ==
            SeriesValue(g, call, PlanMaxPrev(call, points), points, idx)
  {
    hide PlanMaxPrev, Group, Ranges, RowAt;
  }

  /** Adding the contributions of a whole group at once is adding the values of its series,
      with a row exactly when some series has one. */
  lemma {:induction false} DirectSumIsSumOfValues(g: Grid, call: Call, group: seq<seq<Point>>, idx: int)
    requires g.Valid() && g.count > 0 && call.Valid() && WindowTotal(call.fn)
    ensures SumOfRows(GroupContributions(g, call, group, idx)) == SumOfValues(g, call, group, idx)
  {
    hide SeriesContributions, SeriesValue, Fetched, SumOfRows, PlanMaxPrev;
    if group == [] {
      NoRows();
    } else {
      var n := |group| - 1;
      var points := Fetched(g, call, group[n]);
      DirectSumIsSumOfValues(g, call, group[..n], idx);
      SumOfRowsAdds(GroupContributions(g, call, group[..n], idx), SeriesContributions(g, call, points, idx));
      OneSeriesSum(g, call, points, idx);
    }
  }

  /** Without gaps as long as the lookback that is the sum of the reference values. */
  lemma {:induction false} DirectSumIsReference(g: Grid, call: Call, group: seq<seq<Point>>, idx: int)
    requires g.Valid() && call.Valid() && WindowTotal(call.fn) && call.window > 0 && 0 <= idx < g.count
    requires forall k :: 0 <= k < |group| ==> Increasing(group[k]) && CloseGaps(group[k], call.lookback)
    ensures SumOfRows(GroupContributions(g, call, group, idx)) == ReferenceSum(call, group, g.Eval(idx))
  {
    hide SeriesContributions, SeriesValue, Fetched, SumOfRows, PlanMaxPrev, Reference;
    DirectSumIsSumOfValues(g, call, group, idx);
    if group != [] {
      var n := |group| - 1;
      DirectSumIsReference(g, call, group[..n], idx);
      DirectSumIsSumOfValues(g, call, group[..n], idx);
      TotalsAreReference(g, call, group[n], idx);
    }
  }
}
