/** Joining samples to the evaluation steps that read them: the two range expressions of the
    SQL plans, and the grouping of the joined rows by step. */
module StepJoin {
  import opened Samples
  import opened Counter
  import opened Arithmetic

  /** Steps are numbered from 0; samples are read `offset` before the step they belong to. The
      request may end after its last step. */
  datatype Grid = Grid(start: int, step: int, count: nat, end: int, offset: int) {
    ghost predicate Valid() { step > 0 && (count > 0 ==> start + (count - 1) * step <= end) }
    function Eval(i: int): int { start + i * step - offset }
  }

  /** Every step lies between the start and the end of the request. */
  lemma StepInRequest(g: Grid, i: nat)
    requires g.Valid() && i < g.count
    ensures g.start - g.offset <= g.Eval(i) <= g.end - g.offset
  {
    MulMonotone(0, i, g.step);
    MulMonotone(i, g.count - 1, g.step);
  }

  /** ARRAY JOIN range(lo, hi) of the native plan; steps are numbered from 0. */
  function NativeRange(g: Grid, ts: int, span: int): (int, int)
    requires g.Valid()
  {
    (Max(0, CeilDiv(ts + g.offset - g.start, g.step)),
     Max(0, Min(g.count, CeilDiv(ts + g.offset + span - g.start, g.step))))
  }

  /** ARRAY JOIN range(step_lo, step_hi) of the PostHog plan; steps are numbered from 1 and
      the grid starts at the shifted start, so the offset is already applied. */
  function PostHogRange(g: Grid, ts: int, span: int): (int, int)
    requires g.Valid()
  {
    var evalStart := g.start - g.offset;
    var firstStep := CeilDiv(ts - evalStart, g.step) + 1;
    var lo := Max(firstStep, 1);
    (lo, Max(Min(CeilDiv(ts - evalStart + span, g.step) + 1, g.count + 1), Max(firstStep, 1)))
  }

  predicate In(range: (int, int), idx: int) { range.0 <= idx < range.1 }

  /** A sample reaches exactly the steps that lie in its half-open span. */
  lemma NativeRangeCovers(g: Grid, ts: int, span: int, i: int)
    requires g.Valid()
    ensures In(NativeRange(g, ts, span), i) <==> 0 <= i < g.count && ts <= g.Eval(i) < ts + span
  {
    CeilDivBounds(ts + g.offset - g.start, g.step, i);
    CeilDivBounds(ts + g.offset + span - g.start, g.step, i);
  }

  lemma PostHogRangeCovers(g: Grid, ts: int, span: int, i: int)
    requires g.Valid()
    ensures In(PostHogRange(g, ts, span), i + 1) <==> 0 <= i < g.count && ts <= g.Eval(i) < ts + span
  {
    var evalStart := g.start - g.offset;
    CeilDivBounds(ts - evalStart, g.step, i);
    CeilDivBounds(ts - evalStart + span, g.step, i);
  }

  /** The plan's expansion(): no sample is joined to more steps than this. */
  function Expansion(span: int, step: int): int
    requires step > 0
  {
    (span + step - 1) / step + 1
  }

  lemma CeilDivOfSum(a: int, span: int, b: int)
    requires b > 0 && span >= 0
    ensures CeilDiv(a + span, b) - CeilDiv(a, b) <= (span + b - 1) / b
  {
    // With c = CeilDiv(a) and s = ceil(span / b): a + span <= c*b + s*b.
    var c, s := CeilDiv(a, b), (span + b - 1) / b;
    CeilDivBounds(a, b, c);
    assert span <= s * b by {
      assert span + b - 1 == s * b + (span + b - 1) % b;
    }
    assert (c + s) * b == c * b + s * b;
    CeilDivBounds(a + span, b, c + s);
  }

  /** No row explosion: both ranges stay within expansion(), so the configured limit bounds
      the joined rows. */
  lemma RangesAreBounded(g: Grid, ts: int, span: int)
    requires g.Valid() && span >= 0
    ensures var r := NativeRange(g, ts, span); r.1 - r.0 < Expansion(span, g.step)
    ensures var r := PostHogRange(g, ts, span); r.1 - r.0 < Expansion(span, g.step)
  {
    CeilDivOfSum(ts + g.offset - g.start, span, g.step);
    CeilDivOfSum(ts - (g.start - g.offset), span, g.step);
    CeilDivBounds(-(g.step - 1), g.step, 0);
    assert (span + g.step - 1) / g.step >= 0;
  }

  /** GROUP BY step: the ordinals of the samples whose range holds the step, in time order. */
  function Group(ranges: seq<(int, int)>, idx: int): (r: seq<nat>)
    ensures forall k :: 0 <= k < |r| ==> r[k] < |ranges|
  {
    if ranges == [] then []
    else
      var n := |ranges| - 1;
      Group(ranges[..n], idx) + if In(ranges[n], idx) then [n] else []
  }

  /** The ordinals a, a+1, ..., b-1. */
  function Interval(a: nat, b: nat): (r: seq<nat>)
    requires a <= b
    ensures |r| == b - a
    ensures forall k :: 0 <= k < |r| ==> r[k] == a + k
  {
    seq(b - a, k requires 0 <= k < b - a => a + k)
  }

  /** When the samples reaching a step are consecutive, the group is that run, each once. */
  lemma {:induction false} GroupIsInterval(ranges: seq<(int, int)>, idx: int, a: nat, b: nat)
    requires a <= b <= |ranges|
    requires forall k :: 0 <= k < |ranges| ==> (In(ranges[k], idx) <==> a <= k < b)
    ensures Group(ranges, idx) == Interval(a, b)
  {
    if ranges != [] {
      var n := |ranges| - 1;
      if b == n + 1 {
        if a == b {
          GroupIsInterval(ranges[..n], idx, n, n);
        } else {
          GroupIsInterval(ranges[..n], idx, a, n);
          assert Interval(a, b) == Interval(a, n) + [n];
        }
      } else {
        GroupIsInterval(ranges[..n], idx, a, b);
      }
    }
  }

  // ---------------------------------------------------------------- samples read

  /** The samples the plan reads: from the earliest matrix to the end of the request, both ends
      included. */
  function Fetched(g: Grid, call: Call, series: seq<Point>): seq<Point>
    requires g.count > 0 && g.Valid() && call.Valid()
  {
    StepInRequest(g, 0);
    var mint := g.start - g.offset - call.Matrix();
    var maxt := g.end - g.offset;
    LeftOpen(series, mint - 1, maxt)
  }

  /** A window inside the points kept of a series is the window of the series. */
  lemma LeftOpenOfLeftOpen(series: seq<Point>, lo: int, hi: int, from: int, to: int)
    requires Sorted(series) && lo <= from <= to <= hi
    ensures Sorted(LeftOpen(series, lo, hi))
    ensures LeftOpen(LeftOpen(series, lo, hi), from, to) == LeftOpen(series, from, to)
  {
    hide FirstAfter;
    var m, n := FirstAfter(series, lo), FirstAfter(series, hi);
    var a, b := FirstAfter(series, from), FirstAfter(series, to);
    FirstAfterIsMonotone(series, lo, from);
    FirstAfterIsMonotone(series, from, to);
    FirstAfterIsMonotone(series, to, hi);
    FirstAfterInSlice(series, m, n, from);
    FirstAfterInSlice(series, m, n, to);
    assert series[m..n][a - m..b - m] == series[a..b];
  }

  /** Reading only the fetched samples loses nothing any step could see. */
  lemma FetchedKeepsWindows(g: Grid, call: Call, series: seq<Point>, idx: int)
    requires g.Valid() && call.Valid() && Sorted(series) && 0 <= idx < g.count
    ensures Sorted(Fetched(g, call, series))
    ensures Reference(call, Fetched(g, call, series), g.Eval(idx)) == Reference(call, series, g.Eval(idx))
  {
    hide FirstAfter, RollupOf;
    StepInRequest(g, idx);
    LeftOpenOfLeftOpen(series, g.start - g.offset - call.Matrix() - 1, g.end - g.offset,
                       g.Eval(idx) - call.Matrix(), g.Eval(idx));
  }

  // ---------------------------------------------------------------- the margin of the estimate

  /** The margin table as metricsQLSampleIntervalMarginSQL writes it, for both range plans. */
  function MarginSql(interval: int): int {
    if interval <= 2000 then interval * 5
    else if interval <= 4000 then interval * 3
    else if interval <= 8000 then interval * 2
    else if interval <= 16000 then interval + TruncDiv(interval, 2)
    else if interval <= 32000 then interval + TruncDiv(interval, 4)
    else interval + TruncDiv(interval, 8)
  }

  /** The SQL table is the table of the reference, at every interval. */
  lemma MarginSqlIsMargin(interval: int)
    ensures MarginSql(interval) == Margin(interval)
  {
  }
}
