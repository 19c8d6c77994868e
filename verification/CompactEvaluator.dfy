/** The streaming evaluator of compact histograms. It reads the samples of one source after
    another, keeps only the points a later step can still need, and adds each step's counter
    value to the column of its bucket. */
module CompactEvaluator {
  import opened Options
  import opened Samples
  import opened Counter
  import opened Bits
  import opened Counts

  /** irate and idelta keep at most twice this many points of a bucket. */
  const INSTANT_POINTS: nat := 21

  /** The explicit window and range bookkeeping of one query. */
  datatype Plan = Plan(call: Call, start: int, steps: nat) {
    ghost predicate Valid() { call.Valid() && steps > 0 }
    function MaxPoints(): nat { if call.fn.Irate? || call.fn.Idelta? then INSTANT_POINTS else 0 }
    function Time(i: nat): int { start + i * call.step }
    function Oldest(i: nat): int { Time(i) - call.Matrix() }
  }

  /** A bucket bound as stored. Only finite bounds are accepted; the last bucket has none. */
  datatype Bound = Finite(v: real) | PosInf | NegInf | NaN

  datatype Sample = Sample(id: Uint64, cumulative: bool, t: int, count: Uint64, bounds: seq<Bound>, counts: seq<Uint64>)

  /** A compensated sum, as the columns hold it. */
  datatype Cell = Cell(value: real, correction: real, present: bool) {
    function Add(x: real): Cell {
      var next := value + x;
      Cell(next, correction + if Abs(value) >= Abs(x) then (value - next) + x else (x - next) + value, true)
    }
    function Read(): Option<real> { if present then Some(value + correction) else None }
  }

  const EMPTY_CELL := Cell(0.0, 0.0, false)

  lemma CellAddsExactly(c: Cell, x: real)
    requires !c.present ==> c == EMPTY_CELL
    ensures c.Add(x).Read() == Plus(c.Read(), Some(x))
  {
  }

  // ---------------------------------------------------------------- what must come out

  /** One source as accepted: its bucket keys and, for each, all its points. */
  datatype Trace = Trace(keys: seq<Bound>, points: seq<seq<Point>>)

  function IndexOf(keys: seq<Bound>, key: Bound): (r: nat)
    ensures r <= |keys| && (r < |keys| ==> keys[r] == key)
    ensures r == |keys| ==> key !in keys
  {
    if keys == [] then 0 else if keys[0] == key then 0 else 1 + IndexOf(keys[1..], key)
  }

  /** The reference value a source contributes to a bucket at a step. */
  function TraceValue(plan: Plan, trace: Trace, key: Bound, i: nat): Option<real>
    requires plan.Valid()
  {
    var b := IndexOf(trace.keys, key);
    if b < |trace.keys| && b < |trace.points| then
      Reference(plan.call, trace.points[b], plan.start + i * plan.call.step)
    else None
  }

  /** sum by (le) over the sources, at one step. */
  function SumOverSources(plan: Plan, traces: seq<Trace>, key: Bound, i: nat): Option<real>
    requires plan.Valid()
  {
    if traces == [] then None
    else Plus(SumOverSources(plan, traces[..|traces| - 1], key, i), TraceValue(plan, traces[|traces| - 1], key, i))
  }

  // ---------------------------------------------------------------- why trimming is sound

  /** A point after the step cannot change the step's value. */
  lemma LaterPointIsUnseen(call: Call, points: seq<Point>, p: Point, end: int)
    requires call.Valid() && Sorted(points + [p]) && p.t > end
    ensures Reference(call, points + [p], end) == Reference(call, points, end)
  {
    hide RollupOf, FirstAfter;
    var more := points + [p];
    assert more[..|points|] == points;
    assert points == more[0..|points|];
    FirstAfterSplits(points, end);
    FirstAfterSplits(points, end - call.Matrix());
    FirstAfterIsUnique(more, end, FirstAfter(points, end));
    FirstAfterIsUnique(more, end - call.Matrix(), FirstAfter(points, end - call.Matrix()));
    FirstAfterIsMonotone(points, end - call.Matrix(), end);
    var m, n := FirstAfter(points, end - call.Matrix()), FirstAfter(points, end);
    assert more[m..n] == points[m..n];
  }

  /** irate and idelta see the last two points only, so dropping older ones is harmless as
      long as the estimate keeps its 21 timestamps. */
  lemma ValueOfSuffix(fn: Function, points: seq<Point>, k: nat, first: nat, start: int, maxPrev: int, lookback: int)
    requires fn.Irate? || fn.Idelta?
    requires k + INSTANT_POINTS <= |points| && first <= |points|
    ensures Value(fn, points[k..], Max(0, first - k), start, maxPrev, lookback) ==
            Value(fn, points, first, start, maxPrev, lookback)
  {
    hide Step;
  }

  lemma RollupOfSuffix(call: Call, points: seq<Point>, k: nat, end: int)
    requires call.fn.Irate? || call.fn.Idelta?
    requires Sorted(points) && k + INSTANT_POINTS <= |points|
    ensures RollupOf(call, points[k..], end) == RollupOf(call, points, end)
  {
    hide FirstAfter, Value, SampleInterval;
    var n := |points|;
    assert points[k..] == points[k..n];
    SampleIntervalOfSuffix(points, k, call.step);
    var start := end - WindowAt(call, points);
    FirstAfterInSlice(points, k, n, start);
    ValueOfSuffix(call.fn, points, k, FirstAfter(points, start), start, MaxPrevious(call, points), call.lookback);
  }

  /** From `cut` on, the points still suffice for every step from number i on: either nothing
      such a step reads was dropped, or a last-two-points function keeps 21 points. */
  ghost predicate Suffices(plan: Plan, points: seq<Point>, cut: nat, i: nat) {
    cut <= |points| &&
    ((forall j :: 0 <= j < cut ==> points[j].t <= plan.Oldest(i))
     || (plan.MaxPoints() > 0 && cut + INSTANT_POINTS <= |points|))
  }

  /** The trim of advance: drop what left the range, then shorten a long instant history. */
  function TrimPoint(plan: Plan, times: seq<Point>, i: nat): (first: nat)
    ensures first <= |times|
  {
    var first := FirstAfter(times, plan.Oldest(i));
    if plan.MaxPoints() > 0 && |times| - first > 2 * plan.MaxPoints() then |times| - plan.MaxPoints() else first
  }

  /** What is out of range starts at the cut, or where the range of all points starts. */
  lemma RangeAfterCut(points: seq<Point>, cut: nat, oldest: int)
    requires Sorted(points) && cut <= |points|
    ensures cut + FirstAfter(points[cut..], oldest) == Max(cut, FirstAfter(points, oldest))
  {
    assert points[cut..] == points[cut..|points|];
    FirstAfterInSlice(points, cut, |points|, oldest);
  }

  /** A cut past the start of the range was made for a function of the last two points. */
  lemma CutPastRange(plan: Plan, points: seq<Point>, cut: nat, i: nat)
    requires Sorted(points) && Suffices(plan, points, cut, i) && FirstAfter(points, plan.Oldest(i)) < cut
    ensures plan.MaxPoints() > 0 && cut + INSTANT_POINTS <= |points|
  {
    FirstAfterSplits(points, plan.Oldest(i));
  }

  /** Trimming keeps enough for this step and all later ones, and leaves the whole window or
      at least 21 of its points. */
  lemma TrimSuffices(plan: Plan, points: seq<Point>, cut: nat, i: nat)
    requires plan.Valid() && Sorted(points) && Suffices(plan, points, cut, i)
    ensures var m := FirstAfter(points, plan.Oldest(i));
      var kept := cut + TrimPoint(plan, points[cut..], i);
      Suffices(plan, points, kept, i) && m <= kept
      && (kept == m || (plan.MaxPoints() > 0 && kept + INSTANT_POINTS <= |points|))
  {
    var oldest := plan.Oldest(i);
    RangeAfterCut(points, cut, oldest);
    FirstAfterSplits(points, oldest);
    if FirstAfter(points, oldest) < cut {
      CutPastRange(plan, points, cut, i);
    }
    hide FirstAfter, Plan.Oldest, Sorted;
  }

  lemma SufficesLater(plan: Plan, points: seq<Point>, cut: nat, i: nat)
    requires plan.Valid() && Suffices(plan, points, cut, i)
    ensures Suffices(plan, points, cut, i + 1)
  {
    assert plan.Time(i) <= plan.Time(i + 1) by {
      assert (i + 1) * plan.call.step == i * plan.call.step + plan.call.step;
    }
  }

  /** What the evaluator computes from the kept points is the reference on all points. */
  lemma KeptPointsGiveReference(plan: Plan, points: seq<Point>, kept: nat, i: nat)
    requires plan.Valid() && Sorted(points) && kept <= |points|
    requires points != [] ==> points[|points| - 1].t <= plan.Time(i)
    requires var m := FirstAfter(points, plan.Oldest(i));
      m <= kept && (kept == m || (plan.MaxPoints() > 0 && kept + INSTANT_POINTS <= |points|))
    ensures Reference(plan.call, points, plan.Time(i)) == RollupOf(plan.call, points[kept..], plan.Time(i))
  {
    hide FirstAfter, RollupOf;
    var m, n := FirstAfter(points, plan.Oldest(i)), |points|;
    forall k | 0 <= k < n ensures points[k].t <= plan.Time(i) {
      assert k < n - 1 ==> points[k].t <= points[n - 1].t;
    }
    FirstAfterIsUnique(points, plan.Time(i), n);
    var matrix := points[m..n];
    assert Reference(plan.call, points, plan.Time(i)) == RollupOf(plan.call, matrix, plan.Time(i));
    hide Reference;
    if kept != m {
      assert matrix[kept - m..] == points[kept..];
      RollupOfSuffix(plan.call, matrix, kept - m, plan.Time(i));
    } else {
      assert points[kept..] == matrix;
    }
  }

  // ---------------------------------------------------------------- bucket counts

  /** Bounds must be finite and strictly increasing. */
  predicate GoodBound(bounds: seq<Bound>, i: nat)
    requires i < |bounds|
  {
    bounds[i].Finite? && (i > 0 ==> bounds[i - 1].Finite? ==> bounds[i].v > bounds[i - 1].v)
  }

  predicate GoodBounds(bounds: seq<Bound>) { forall i :: 0 <= i < |bounds| ==> GoodBound(bounds, i) }

  function Keys(bounds: seq<Bound>): seq<Bound> { bounds + [PosInf] }

  ghost predicate Distinct(keys: seq<Bound>) { forall i, j :: 0 <= i < j < |keys| ==> keys[i] != keys[j] }

  lemma {:induction false} BoundsIncrease(bounds: seq<Bound>, i: nat, j: nat)
    requires GoodBounds(bounds) && i < j < |bounds|
    ensures bounds[i].Finite? && bounds[j].Finite? && bounds[i].v < bounds[j].v
  {
    assert GoodBound(bounds, j) && GoodBound(bounds, j - 1);
    if i < j - 1 {
      BoundsIncrease(bounds, i, j - 1);
    }
  }

  lemma GoodBoundsAreDistinct(bounds: seq<Bound>)
    requires GoodBounds(bounds)
    ensures Distinct(Keys(bounds))
  {
    var keys := Keys(bounds);
    forall i, j | 0 <= i < j < |keys| ensures keys[i] != keys[j] {
      assert GoodBound(bounds, i);
      if j < |bounds| {
        BoundsIncrease(bounds, i, j);
      }
    }
  }

  lemma DistinctIndex(keys: seq<Bound>, b: nat)
    requires Distinct(keys) && b < |keys|
    ensures IndexOf(keys, keys[b]) == b
  {
  }

  /** The search and the estimate read only timestamps, so all buckets share them. */
  lemma {:induction false} FirstAfterReadsTimes(a: seq<Point>, b: seq<Point>, bound: int)
    requires |a| == |b| && forall i :: 0 <= i < |a| ==> a[i].t == b[i].t
    ensures FirstAfter(a, bound) == FirstAfter(b, bound)
  {
    if a != [] {
      FirstAfterReadsTimes(a[1..], b[1..], bound);
    }
  }

  ghost predicate SameTimes(a: seq<Point>, b: seq<Point>) {
    |a| == |b| && forall i :: 0 <= i < |a| ==> a[i].t == b[i].t
  }

  lemma SharedTimes(call: Call, times: seq<Point>, points: seq<Point>, end: int)
    requires SameTimes(times, points)
    ensures var start := end - WindowAt(call, times);
      Value(call.fn, points, FirstAfter(times, start), start, MaxPrevious(call, times), call.lookback)
          == RollupOf(call, points, end)
  {
    hide FirstAfter, Value, SampleInterval;
    SampleIntervalReadsTimes(times, points, call.step);
    FirstAfterReadsTimes(times, points, end - WindowAt(call, times));
  }

  // ---------------------------------------------------------------- the columns

  type Columns = map<Bound, seq<Cell>>

  ghost predicate CellHolds(plan: Plan, cell: Cell, done: seq<Trace>, live: Trace, upto: nat, key: Bound, i: nat)
    requires plan.Valid()
  {
    (!cell.present ==> cell == EMPTY_CELL)
    && cell.Read()
        == Plus(SumOverSources(plan, done, key, i), if i < upto then TraceValue(plan, live, key, i) else None)
  }

  /** Every cell is the sum of the reference values of the finished sources and, for the steps
      below upto, of the current one. */
  ghost predicate Ledger(plan: Plan, buckets: Columns, done: seq<Trace>, live: Trace, upto: nat)
    requires plan.Valid()
  {
    && upto <= plan.steps
    && (forall key :: key in buckets ==> |buckets[key]| == plan.steps)
    && (forall key, i: nat :: key in buckets && i < plan.steps ==>
        CellHolds(plan, buckets[key][i], done, live, upto, key, i))
    && (forall n: nat, b: nat :: n < |done| && b < |done[n].keys| ==> done[n].keys[b] in buckets)
  }

  function AddTo(cell: Cell, value: Option<real>): Cell {
    match value
    case None => cell
    case Some(x) => cell.Add(x)
  }

  /** What the column loop of advance leaves behind after n columns: one value added per
      column, at one step. */
  ghost predicate AddedAt(before: Columns, after: Columns, columns: seq<Bound>, values: seq<Option<real>>, i: nat)
    requires |values| <= |columns|
    requires forall key :: key in before ==> i < |before[key]|
  {
    after.Keys == before.Keys
    && forall key :: key in before ==>
         var b := IndexOf(columns, key);
         after[key] == if b < |values| then before[key][i := AddTo(before[key][i], values[b])] else before[key]
  }

  lemma NothingAdded(before: Columns, columns: seq<Bound>, i: nat)
    requires forall key :: key in before ==> i < |before[key]|
    ensures AddedAt(before, before, columns, [], i)
  {
  }

  lemma AddOneColumn(before: Columns, after: Columns, columns: seq<Bound>, values: seq<Option<real>>,
                     value: Option<real>, i: nat)
    requires |values| < |columns| && Distinct(columns) && columns[|values|] in before
    requires forall key :: key in before ==> i < |before[key]|
    requires AddedAt(before, after, columns, values, i)
    ensures var key := columns[|values|];
      key in after && i < |after[key]|
      && AddedAt(before, after[key := after[key][i := AddTo(after[key][i], value)]], columns, values + [value], i)
  {
    hide AddTo;
    var key := columns[|values|];
    DistinctIndex(columns, |values|);
    hide IndexOf, Distinct;
    var (more, longer) := (after[key := after[key][i := AddTo(after[key][i], value)]], values + [value]);
    forall k | k in before
      ensures var b := IndexOf(columns, k);
        more[k] == if b < |longer| then before[k][i := AddTo(before[k][i], longer[b])] else before[k]
    {
      var b := IndexOf(columns, k);
      if k == key {
        assert after[key] == before[key] && longer[b] == value;
      } else {
        assert b != |values| && more[k] == after[k];
        assert b < |values| ==> longer[b] == values[b];
      }
    }
  }

  /** Adding the reference values of one more step moves the ledger one step on. */
  lemma LedgerStep(plan: Plan, before: Columns, after: Columns, done: seq<Trace>, live: Trace,
                   values: seq<Option<real>>, i: nat)
    requires plan.Valid() && i < plan.steps && Ledger(plan, before, done, live, i)
    requires |values| == |live.keys| == |live.points| && AddedAt(before, after, live.keys, values, i)
    requires forall b :: 0 <= b < |values| ==> values[b] == Reference(plan.call, live.points[b], plan.Time(i))
    ensures Ledger(plan, after, done, live, i + 1)
  {
    hide Reference, SumOverSources;
    forall key, j: nat | key in after && j < plan.steps
      ensures CellHolds(plan, after[key][j], done, live, i + 1, key, j)
    {
      var cell := before[key][j];
      assert CellHolds(plan, cell, done, live, i, key, j);
      var b := IndexOf(live.keys, key);
      if j == i && b < |live.keys| && values[b].Some? {
        CellAddsExactly(cell, values[b].value);
      }
    }
  }

  lemma ExtendedSource(plan: Plan, live: Trace, more: Trace, key: Bound, i: nat)
    requires plan.Valid() && more.keys == live.keys && |more.points| == |live.points| == |live.keys|
    requires forall b :: 0 <= b < |live.points| ==>
      more.points[b] != [] && more.points[b][..|more.points[b]| - 1] == live.points[b]
      && Sorted(more.points[b]) && more.points[b][|more.points[b]| - 1].t > plan.Time(i)
    ensures TraceValue(plan, more, key, i) == TraceValue(plan, live, key, i)
  {
    hide Reference;
    var b := IndexOf(live.keys, key);
    if b < |live.keys| {
      var p := more.points[b][|more.points[b]| - 1];
      assert more.points[b] == live.points[b] + [p];
      LaterPointIsUnseen(plan.call, live.points[b], p, plan.Time(i));
    }
  }

  /** Points later than every evaluated step leave the ledger alone. */
  lemma LedgerAppend(plan: Plan, buckets: Columns, done: seq<Trace>, live: Trace, more: Trace, upto: nat)
    requires plan.Valid() && Ledger(plan, buckets, done, live, upto)
    requires more.keys == live.keys && |more.points| == |live.points| == |live.keys|
    requires forall b :: 0 <= b < |live.points| ==>
      more.points[b] != [] && more.points[b][..|more.points[b]| - 1] == live.points[b] && Sorted(more.points[b])
      && forall i: nat :: i < upto ==> more.points[b][|more.points[b]| - 1].t > plan.Time(i)
    ensures Ledger(plan, buckets, done, more, upto)
  {
    hide SumOverSources, TraceValue;
    forall key, i: nat | key in buckets && i < plan.steps
      ensures CellHolds(plan, buckets[key][i], done, more, upto, key, i)
    {
      assert CellHolds(plan, buckets[key][i], done, live, upto, key, i);
      if i < upto {
        ExtendedSource(plan, live, more, key, i);
      }
    }
  }

  /** A source evaluated at every step joins the finished ones. */
  lemma LedgerClose(plan: Plan, buckets: Columns, done: seq<Trace>, live: Trace)
    requires plan.Valid() && Ledger(plan, buckets, done, live, plan.steps)
    requires forall b: nat :: b < |live.keys| ==> live.keys[b] in buckets
    ensures Ledger(plan, buckets, done + [live], Trace([], []), 0)
  {
    hide TraceValue;
    var all := done + [live];
    assert all[..|done|] == done;
    forall key, i: nat | key in buckets && i < plan.steps
      ensures CellHolds(plan, buckets[key][i], all, Trace([], []), 0, key, i)
    {
      assert CellHolds(plan, buckets[key][i], done, live, plan.steps, key, i);
    }
  }

  lemma {:induction false} UnknownKey(plan: Plan, done: seq<Trace>, key: Bound, i: nat)
    requires plan.Valid()
    requires forall n: nat, b: nat :: n < |done| && b < |done[n].keys| ==> done[n].keys[b] != key
    ensures SumOverSources(plan, done, key, i) == None
  {
    if done != [] {
      UnknownKey(plan, done[..|done| - 1], key, i);
      assert IndexOf(done[|done| - 1].keys, key) == |done[|done| - 1].keys|;
    }
  }

  /** A bucket seen for the first time starts with empty cells. */
  lemma LedgerOpen(plan: Plan, buckets: Columns, done: seq<Trace>, live: Trace, key: Bound)
    requires plan.Valid() && Ledger(plan, buckets, done, live, 0) && key !in buckets
    ensures Ledger(plan, buckets[key := seq(plan.steps, _ => EMPTY_CELL)], done, live, 0)
  {
    hide SumOverSources, TraceValue;
    var more := buckets[key := seq(plan.steps, _ => EMPTY_CELL)];
    forall k, i: nat | k in more && i < plan.steps
      ensures CellHolds(plan, more[k][i], done, live, 0, k, i)
    {
      if k == key {
        UnknownKey(plan, done, key, i);
      } else {
        assert CellHolds(plan, buckets[k][i], done, live, 0, k, i);
      }
    }
  }

  // ---------------------------------------------------------------- the histories

  /** Histories hold the newest points of their buckets, on common timestamps. */
  ghost predicate Aligned(columns: seq<Bound>, history: seq<seq<Point>>, full: seq<seq<Point>>, cut: nat) {
    |columns| == |history| == |full|
    && forall b :: 0 <= b < |full| ==>
         cut <= |full[b]| && history[b] == full[b][cut..] && Sorted(full[b]) && SameTimes(full[0], full[b])
  }

  /** Before step i is evaluated: the kept points suffice and none is later than the step. */
  ghost predicate Ready(plan: Plan, full: seq<seq<Point>>, cut: nat, i: nat)
    requires plan.Valid()
  {
    full != [] ==>
      Suffices(plan, full[0], cut, i) && (full[0] != [] ==> full[0][|full[0]| - 1].t <= plan.Time(i))
  }

  /** The trim loop of advance. */
  method DropFirst(history: seq<seq<Point>>, first: nat) returns (kept: seq<seq<Point>>)
    requires forall b :: 0 <= b < |history| ==> first <= |history[b]|
    ensures |kept| == |history| && forall b :: 0 <= b < |kept| ==> kept[b] == history[b][first..]
  {
    kept := history;
    for index := 0 to |history|
      invariant |kept| == |history|
      invariant forall b :: 0 <= b < index ==> kept[b] == history[b][first..]
      invariant forall b :: index <= b < |history| ==> kept[b] == history[b]
    {
      kept := kept[index := kept[index][first..]];
    }
  }

  /** The head of one step of advance: the histories it goes on with, and how much of each
      bucket is gone. */
  method Trim(plan: Plan, columns: seq<Bound>, history: seq<seq<Point>>, i: nat, ghost full: seq<seq<Point>>,
              ghost cut: nat)
    returns (kept: seq<seq<Point>>, ghost gone: nat)
    requires plan.Valid() && Aligned(columns, history, full, cut) && Ready(plan, full, cut, i)
    ensures Aligned(columns, kept, full, gone) && Ready(plan, full, gone, i)
    ensures full != [] ==>
      var m := FirstAfter(full[0], plan.Oldest(i));
      m <= gone && (gone == m || (plan.MaxPoints() > 0 && gone + INSTANT_POINTS <= |full[0]|))
  {
    hide FirstAfter;
    kept, gone := history, cut;
    if |history| > 0 {
      var times := history[0];
      var first := FirstAfter(times, plan.Oldest(i));
      if plan.MaxPoints() > 0 && |times| - first > 2 * plan.MaxPoints() {
        first := |times| - plan.MaxPoints();
      }
      TrimSuffices(plan, full[0], cut, i);
      if first > 0 {
        kept := DropFirst(history, first);
        gone := cut + first;
      }
    }
  }

  /** The column loop of one step: each bucket's counter value joins its column. */
  method AddColumns(plan: Plan, buckets: Columns, columns: seq<Bound>, history: seq<seq<Point>>, i: nat)
    returns (after: Columns, ghost values: seq<Option<real>>)
    requires plan.Valid() && |columns| == |history| && |history| > 0 && Distinct(columns)
    requires forall key :: key in buckets ==> i < |buckets[key]|
    requires forall b :: 0 <= b < |columns| ==> columns[b] in buckets
    requires forall b :: 0 <= b < |history| ==> SameTimes(history[0], history[b])
    ensures |values| == |columns| && AddedAt(buckets, after, columns, values, i)
    ensures forall b :: 0 <= b < |values| ==> values[b] == RollupOf(plan.call, history[b], plan.Time(i))
  {
    hide FirstAfter, Value, SampleInterval, RollupOf, AddTo, IndexOf, AddedAt;
    var times := history[0];
    var maxPrevious := EstimateInterval(times, plan.call.step);
    maxPrevious := Min(maxPrevious, plan.call.lookback);
    var window := plan.call.window;
    if window == 0 {
      window := Max(plan.call.step, maxPrevious);
    }
    var start := plan.Time(i) - window;
    var firstPoint := FirstAfter(times, start);
    after, values := buckets, [];
    NothingAdded(buckets, columns, i);
    for index := 0 to |columns|
      invariant |values| == index && AddedAt(buckets, after, columns, values, i)
      invariant forall b :: 0 <= b < index ==> values[b] == RollupOf(plan.call, history[b], plan.Time(i))
    {
      SharedTimes(plan.call, times, history[index], plan.Time(i));
      var value := CounterValue(plan.call.fn, history[index], firstPoint, start, maxPrevious, plan.call.lookback);
      AddOneColumn(buckets, after, columns, values, value, i);
      var key := columns[index];
      after := after[key := after[key][i := AddTo(after[key][i], value)]];
      values := values + [value];
    }
  }

  /** No points kept, nothing to add: the reference shows no point either. */
  lemma NothingKept(plan: Plan, buckets: Columns, columns: seq<Bound>, i: nat)
    requires forall key :: key in buckets ==> i < |buckets[key]|
    ensures AddedAt(buckets, buckets, columns, seq(|columns|, _ => None), i)
  {
  }

  /** The histories after the trim give every bucket its reference value at step i. */
  lemma StepValues(plan: Plan, columns: seq<Bound>, history: seq<seq<Point>>, full: seq<seq<Point>>, gone: nat, i: nat)
    requires plan.Valid() && Aligned(columns, history, full, gone) && Ready(plan, full, gone, i)
    requires full != [] ==>
      var m := FirstAfter(full[0], plan.Oldest(i));
      m <= gone && (gone == m || (plan.MaxPoints() > 0 && gone + INSTANT_POINTS <= |full[0]|))
    ensures forall b :: 0 <= b < |full| ==>
      Reference(plan.call, full[b], plan.Time(i)) == RollupOf(plan.call, history[b], plan.Time(i))
    ensures forall b :: 0 <= b < |history| && history[b] == [] ==> RollupOf(plan.call, history[b], plan.Time(i)) == None
  {
    hide FirstAfter, RollupOf, Reference;
    forall b | 0 <= b < |full|
      ensures Reference(plan.call, full[b], plan.Time(i)) == RollupOf(plan.call, history[b], plan.Time(i))
    {
      FirstAfterReadsTimes(full[0], full[b], plan.Oldest(i));
      KeptPointsGiveReference(plan, full[b], gone, i);
    }
    forall b | 0 <= b < |history| && history[b] == []
      ensures RollupOf(plan.call, history[b], plan.Time(i)) == None
    {
      RollupOfNothing(plan.call, plan.Time(i));
    }
  }

  lemma RollupOfNothing(call: Call, end: int)
    ensures RollupOf(call, [], end) == None
  {
  }

  lemma ReadyLater(plan: Plan, full: seq<seq<Point>>, gone: nat, i: nat)
    requires plan.Valid() && Ready(plan, full, gone, i)
    ensures Ready(plan, full, gone, i + 1) && plan.Time(i) < plan.Time(i + 1)
  {
    assert (i + 1) * plan.call.step == i * plan.call.step + plan.call.step;
    if full != [] {
      SufficesLater(plan, full[0], gone, i);
    }
  }

  // ---------------------------------------------------------------- one sample

  function PointOf(sample: Sample, b: nat): Point
    requires b < |sample.counts|
  {
    Point(sample.t, Running(sample.counts, b + 1) as real)
  }

  function Fresh(sample: Sample): Trace {
    Trace(Keys(sample.bounds), seq(|sample.counts|, _ => []))
  }

  /** A source with one more sample: a cumulative count on every bucket. */
  function Extended(trace: Trace, sample: Sample): (r: Trace)
    requires |trace.points| == |sample.counts|
    ensures |r.points| == |trace.points| && r.keys == trace.keys
  {
    Trace(trace.keys, seq(|trace.points|, b requires 0 <= b < |trace.points| => trace.points[b] + [PointOf(sample, b)]))
  }

  /** The count loop of add, with its overflow, bound and duplicate checks. */
  method CheckCounts(bounds: seq<Bound>, counts: seq<Uint64>, current: seq<real>, duplicate: bool)
    returns (ok: bool, next: seq<real>, cumulative: nat)
    requires |counts| == |bounds| + 1 == |current|
    ensures |next| == |counts|
    ensures ok ==> GoodBounds(bounds) && cumulative == Running(counts, |counts|) < TWO64
    ensures ok ==> forall b :: 0 <= b < |counts| ==> next[b] == Running(counts, b + 1) as real
    ensures ok && duplicate ==> next == current
    ensures !ok ==> !GoodBounds(bounds) || Running(counts, |counts|) >= TWO64
                    || (duplicate && exists b :: 0 <= b < |counts| && current[b] != Running(counts, b + 1) as real)
  {
    next, cumulative := current, 0;
    for index := 0 to |counts|
      invariant |next| == |counts|
      invariant cumulative == Running(counts, index) < TWO64
      invariant forall b :: 0 <= b < index && b < |bounds| ==> GoodBound(bounds, b)
      invariant forall b :: 0 <= b < index ==>
        next[b] == Running(counts, b + 1) as real && (duplicate ==> next[b] == current[b])
      invariant forall b :: index <= b < |counts| ==> next[b] == current[b]
    {
      if counts[index] > TWO64 - 1 - cumulative {
        RunningGrows(counts, index + 1, |counts|);
        return false, next, cumulative;
      }
      cumulative := cumulative + counts[index];
      if index < |bounds| {
        assert index > 0 ==> GoodBound(bounds, index - 1);
        if !bounds[index].Finite? || (index > 0 && bounds[index].v <= bounds[index - 1].v) {
          assert !GoodBound(bounds, index);
          return false, next, cumulative;
        }
        assert GoodBound(bounds, index);
      }
      if duplicate && next[index] != cumulative as real {
        return false, next, cumulative;
      }
      next := next[index := cumulative as real];
    }
    ok := true;
  }

  function KeySet(keys: seq<Bound>): set<Bound> { set k | k in keys }

  lemma KeySetGrows(keys: seq<Bound>, key: Bound)
    ensures KeySet(keys + [key]) == KeySet(keys) + {key}
  {
  }

  lemma KeySetOfPrefix(keys: seq<Bound>, n: nat)
    requires n <= |keys|
    ensures KeySet(keys[..n]) <= KeySet(keys)
  {
  }

  /** A new source may not push the cells of all columns over the sample limit. */
  ghost predicate OverBudget(plan: Plan, maxSamples: nat, known: set<Bound>, keys: seq<Bound>)
    requires plan.Valid()
  {
    maxSamples > 0 && !(KeySet(keys) <= known) && |known + KeySet(keys)| * plan.steps > maxSamples
  }

  lemma LargerSet<T>(a: set<T>, b: set<T>)
    requires a <= b
    ensures |a| <= |b|
  {
    assert b == a + (b - a);
  }

  lemma TooManyCells(n: nat, steps: nat, limit: nat)
    requires steps > 0
    ensures n > limit / steps <==> n * steps > limit
  {
    var q := limit / steps;
    assert limit == q * steps + limit % steps;
    if n > q {
      assert (n - q - 1) * steps >= 0;
      assert n * steps == q * steps + steps + (n - q - 1) * steps;
    } else {
      assert (q - n) * steps >= 0;
      assert q * steps == n * steps + (q - n) * steps;
    }
  }

  /** The first new key that does not fit shows that all of them together do not. */
  lemma OneTooMany(plan: Plan, maxSamples: nat, known: set<Bound>, keys: seq<Bound>, n: nat)
    requires plan.Valid() && n < |keys| && maxSamples > 0 && keys[n] !in known + KeySet(keys[..n])
    requires |known + KeySet(keys[..n])| + 1 > maxSamples / plan.steps
    ensures OverBudget(plan, maxSamples, known, keys)
  {
    TooManyCells(|known + KeySet(keys)|, plan.steps, maxSamples);
    var seen := known + KeySet(keys[..n]);
    KeySetOfPrefix(keys, n);
    LargerSet(seen + {keys[n]}, known + KeySet(keys));
    assert keys[n] in KeySet(keys);
  }

  /** Keys that are known, or fit one at a time, stay within the budget together. */
  lemma OneMoreKey(plan: Plan, maxSamples: nat, known: set<Bound>, columns: seq<Bound>, key: Bound)
    requires plan.Valid() && !OverBudget(plan, maxSamples, known, columns)
    requires key !in known + KeySet(columns) && maxSamples > 0 ==>
      |known + KeySet(columns)| + 1 <= maxSamples / plan.steps
    ensures !OverBudget(plan, maxSamples, known, columns + [key])
  {
    TooManyCells(|known + KeySet(columns)| + 1, plan.steps, maxSamples);
    KeySetGrows(columns, key);
    var seen := known + KeySet(columns);
    if key in seen {
      assert known + KeySet(columns + [key]) == seen;
    } else {
      assert known + KeySet(columns + [key]) == seen + {key};
    }
  }

  method OpenColumn(plan: Plan, maxSamples: nat, buckets: Columns, key: Bound,
                    ghost known: set<Bound>, ghost columns: seq<Bound>, ghost done: seq<Trace>, ghost live: Trace)
    returns (ok: bool, more: Columns)
    requires plan.Valid() && Ledger(plan, buckets, done, live, 0)
    requires buckets.Keys == known + KeySet(columns) && !OverBudget(plan, maxSamples, known, columns)
    ensures ok ==> Ledger(plan, more, done, live, 0) && more.Keys == known + KeySet(columns + [key])
                   && !OverBudget(plan, maxSamples, known, columns + [key])
    ensures !ok ==> maxSamples > 0 && key !in known + KeySet(columns)
                    && |known + KeySet(columns)| + 1 > maxSamples / plan.steps
  {
    hide Ledger, KeySet, OverBudget;
    more := buckets;
    assert |buckets| == |buckets.Keys|;
    KeySetGrows(columns, key);
    if key !in buckets {
      if maxSamples > 0 && |buckets| + 1 > maxSamples / plan.steps {
        return false, more;
      }
      LedgerOpen(plan, buckets, done, live, key);
      more := buckets[key := seq(plan.steps, _ => EMPTY_CELL)];
    }
    OneMoreKey(plan, maxSamples, known, columns, key);
    ok := true;
  }

  /** The column loop of a new source: missing buckets are created while the cell budget
      lasts. */
  method OpenColumns(plan: Plan, maxSamples: nat, buckets: Columns, keys: seq<Bound>, ghost done: seq<Trace>,
                     ghost live: Trace)
    returns (ok: bool, more: Columns, columns: seq<Bound>)
    requires plan.Valid() && Ledger(plan, buckets, done, live, 0)
    ensures ok <==> !OverBudget(plan, maxSamples, buckets.Keys, keys)
    ensures ok ==> columns == keys && Ledger(plan, more, done, live, 0) && more.Keys == buckets.Keys + KeySet(keys)
  {
    hide Ledger, KeySet, OverBudget;
    more, columns := buckets, [];
    ghost var known := buckets.Keys;
    EmptyKeySet(plan, maxSamples, known);
    for index := 0 to |keys|
      invariant columns == keys[..index]
      invariant Ledger(plan, more, done, live, 0)
      invariant more.Keys == known + KeySet(columns) && !OverBudget(plan, maxSamples, known, columns)
    {
      ok, more := OpenColumn(plan, maxSamples, more, keys[index], known, columns, done, live);
      if !ok {
        OneTooMany(plan, maxSamples, known, keys, index);
        return;
      }
      columns := columns + [keys[index]];
    }
    assert columns == keys;
    ok := true;
  }

  lemma KeysAreIn(keys: seq<Bound>)
    ensures forall b :: 0 <= b < |keys| ==> keys[b] in KeySet(keys)
  {
  }

  lemma EmptyKeySet(plan: Plan, maxSamples: nat, known: set<Bound>)
    requires plan.Valid()
    ensures KeySet([]) == {} && !OverBudget(plan, maxSamples, known, [])
  {
  }

  // ---------------------------------------------------------------- what has been read

  /** The points of all buckets of a source. */
  function PointsIn(points: seq<seq<Point>>): nat {
    if points == [] then 0 else PointsIn(points[..|points| - 1]) + |points[|points| - 1]|
  }

  /** Points and buckets of all sources, and their bounds. */
  function PointCount(traces: seq<Trace>): nat {
    if traces == [] then 0 else PointCount(traces[..|traces| - 1]) + PointsIn(traces[|traces| - 1].points)
  }

  function BucketCount(traces: seq<Trace>): nat {
    if traces == [] then 0 else BucketCount(traces[..|traces| - 1]) + |traces[|traces| - 1].points|
  }

  function AllKeys(traces: seq<Trace>): set<Bound> {
    if traces == [] then {} else AllKeys(traces[..|traces| - 1]) + KeySet(traces[|traces| - 1].keys)
  }

  lemma CountsOfMore(traces: seq<Trace>, t: Trace)
    ensures PointCount(traces + [t]) == PointCount(traces) + PointsIn(t.points)
    ensures BucketCount(traces + [t]) == BucketCount(traces) + |t.points|
    ensures AllKeys(traces + [t]) == AllKeys(traces) + KeySet(t.keys)
  {
    assert (traces + [t])[..|traces|] == traces;
  }

  lemma {:induction false} OnePointEach(was: seq<seq<Point>>, now: seq<seq<Point>>)
    requires |now| == |was| && forall b :: 0 <= b < |was| ==> |now[b]| == |was[b]| + 1
    ensures PointsIn(now) == PointsIn(was) + |was|
  {
    if was != [] {
      OnePointEach(was[..|was| - 1], now[..|now| - 1]);
    }
  }

  lemma {:induction false} NoPoints(points: seq<seq<Point>>)
    requires forall b :: 0 <= b < |points| ==> points[b] == []
    ensures PointsIn(points) == 0
  {
    if points != [] {
      NoPoints(points[..|points| - 1]);
    }
  }

  lemma ExtendedCounts(trace: Trace, sample: Sample)
    requires |trace.points| == |sample.counts|
    ensures PointsIn(Extended(trace, sample).points) == PointsIn(trace.points) + |sample.counts|
  {
    OnePointEach(trace.points, Extended(trace, sample).points);
  }

  lemma FreshCounts(sample: Sample)
    ensures PointsIn(Fresh(sample).points) == 0 && |Fresh(sample).points| == |sample.counts|
  {
    NoPoints(Fresh(sample).points);
  }

  lemma {:induction false} KeysOfTraces(traces: seq<Trace>)
    ensures forall t, key :: t in traces && key in t.keys ==> key in AllKeys(traces)
  {
    if traces != [] {
      var n := |traces| - 1;
      KeysOfTraces(traces[..n]);
      assert traces == traces[..n] + [traces[n]];
    }
  }

  // ---------------------------------------------------------------- the evaluator

  /** One step of advance, from the trim to the columns. */
  method EvaluateStep(plan: Plan, columns: seq<Bound>, history: seq<seq<Point>>, buckets: Columns, i: nat,
                      ghost full: seq<seq<Point>>, ghost cut: nat, ghost done: seq<Trace>)
    returns (kept: seq<seq<Point>>, after: Columns, ghost gone: nat)
    requires plan.Valid() && i < plan.steps && Aligned(columns, history, full, cut) && Ready(plan, full, cut, i)
    requires Ledger(plan, buckets, done, Trace(columns, full), i)
    requires full != [] && full[0] != [] ==> Distinct(columns)
    requires forall b :: 0 <= b < |columns| ==> columns[b] in buckets
    ensures Aligned(columns, kept, full, gone) && Ready(plan, full, gone, i + 1)
    ensures Ledger(plan, after, done, Trace(columns, full), i + 1) && after.Keys == buckets.Keys
  {
    hide Ledger, AddedAt, Distinct, RollupOf, Reference, FirstAfter, Suffices;
    assert forall key :: key in buckets ==> |buckets[key]| == plan.steps by {
      LedgerSizes(plan, buckets, done, Trace(columns, full), i);
    }
    kept, gone := Trim(plan, columns, history, i, full, cut);
    StepValues(plan, columns, kept, full, gone, i);
    ReadyLater(plan, full, gone, i);
    ghost var values: seq<Option<real>>;
    if |kept| > 0 && |kept[0]| > 0 {
      after, values := AddColumns(plan, buckets, columns, kept, i);
    } else {
      after, values := buckets, seq(|columns|, _ => None);
      NothingKept(plan, buckets, columns, i);
    }
    LedgerStep(plan, buckets, after, done, Trace(columns, full), values, i);
    assert after.Keys == buckets.Keys by { SameColumns(buckets, after, columns, values, i); }
  }

  lemma LedgerSizes(plan: Plan, buckets: Columns, done: seq<Trace>, live: Trace, upto: nat)
    requires plan.Valid() && Ledger(plan, buckets, done, live, upto)
    ensures forall key :: key in buckets ==> |buckets[key]| == plan.steps
  {
  }

  lemma SameColumns(before: Columns, after: Columns, columns: seq<Bound>, values: seq<Option<real>>, i: nat)
    requires |values| <= |columns| && forall key :: key in before ==> i < |before[key]|
    requires AddedAt(before, after, columns, values, i)
    ensures after.Keys == before.Keys
  {
  }

  /** The checks on one sample against the newest point of its source: time order, bounds,
      the observation count, and equal buckets on an equal timestamp. */
  ghost predicate Acceptable(points: seq<Point>, current: seq<real>, sample: Sample)
    requires |sample.counts| == |sample.bounds| + 1 && (points != [] ==> |current| == |sample.counts|)
  {
    var last := if points == [] then sample.t - 1 else points[|points| - 1].t;
    last <= sample.t
    && GoodBounds(sample.bounds) && Running(sample.counts, |sample.counts|) == sample.count
    && (last == sample.t ==> forall b :: 0 <= b < |current| ==> current[b] == Running(sample.counts, b + 1) as real)
  }

  lemma InOrder(points: seq<Point>, current: seq<real>, sample: Sample)
    requires |sample.counts| == |sample.bounds| + 1 && (points != [] ==> |current| == |sample.counts|)
    requires Acceptable(points, current, sample)
    ensures points != [] ==> points[|points| - 1].t <= sample.t
  {
  }

  /** The kept history decides as all points would: its newest point is theirs, or all of
      them are gone and older than the sample. */
  lemma SameVerdict(points: seq<Point>, history: seq<Point>, current: seq<real>, sample: Sample)
    requires |sample.counts| == |sample.bounds| + 1 == |current|
    requires history != [] ==> points != [] && points[|points| - 1] == history[|history| - 1]
    requires points != [] && history == [] ==> points[|points| - 1].t < sample.t
    ensures Acceptable(history, current, sample) <==> Acceptable(points, current, sample)
  {
  }

  /** The checks of add on one sample. */
  method Decide(times: seq<Point>, current: seq<real>, sample: Sample) returns (ok: bool, next: seq<real>)
    requires |sample.counts| == |sample.bounds| + 1 == |current|
    ensures ok <==> Acceptable(times, current, sample)
    ensures ok ==> |next| == |sample.counts| && GoodBounds(sample.bounds)
                   && forall b :: 0 <= b < |next| ==> next[b] == Running(sample.counts, b + 1) as real
  {
    hide GoodBounds, Running;
    var duplicate := |times| > 0 && times[|times| - 1].t == sample.t;
    next := current;
    if |times| > 0 && times[|times| - 1].t > sample.t {
      return false, next;
    }
    var cumulative;
    ok, next, cumulative := CheckCounts(sample.bounds, sample.counts, current, duplicate);
    ok := ok && cumulative == sample.count;
  }

  datatype Outcome = Accepted | Fallback | SampleLimit | SeriesLimit

  class Evaluator {
    const plan: Plan
    const maxSamples: nat // 0 for no limit
    const maxSeries: nat
    var buckets: Columns
    var columns: seq<Bound> // the bucket each history feeds
    var bounds: seq<Bound>
    var current: seq<real>
    var history: seq<seq<Point>>
    var sourceID: Uint64
    var haveSource: bool
    var grid: nat // the next step to evaluate for this source
    var samples: nat
    var series: nat

    ghost var done: seq<Trace>      // the sources read to their end
    ghost var full: seq<seq<Point>> // every point of the current source, by bucket
    ghost var cut: nat              // how many of them history has dropped

    ghost function Live(): Trace
      reads this
    {
      Trace(columns, full)
    }

    /** All sources read so far. */
    ghost function Traces(): seq<Trace>
      reads this
    {
      if haveSource then done + [Live()] else done
    }

    /** The books are right up to the grid position, and the histories suffice to go on. */
    ghost predicate CanAdvance()
      reads this
    {
      plan.Valid() && grid <= plan.steps && Aligned(columns, history, full, cut)
      && Ledger(plan, buckets, done, Live(), if haveSource then grid else 0)
      && (haveSource ==> forall b :: 0 <= b < |columns| ==> columns[b] in buckets)
      && (grid < plan.steps ==> Ready(plan, full, cut, grid))
      && (grid < plan.steps && full != [] ==> haveSource)
      && (haveSource && full != [] && full[0] != [] ==> Distinct(columns))
    }

    /** Between samples, and after the result. */
    ghost predicate Valid()
      reads this
    {
      CanAdvance()
      && (haveSource ==>
            full != [] && full[0] != [] && columns == Keys(bounds) && |current| == |columns|
            && forall b :: 0 <= b < |columns| ==> |full[b]| == |full[0]| && current[b] == full[b][|full[b]| - 1].v)
    }

    /** The steps evaluated so far lie before the newest sample, so another one may come. */
    ghost predicate Open()
      reads this
    {
      Valid() && (haveSource ==> cut < |full[0]| && (grid > 0 ==> plan.Time(grid - 1) < full[0][|full[0]| - 1].t))
    }

    /** The limits count the points and the buckets of all sources, and exactly their bounds have
        columns. */
    ghost predicate Counted()
      reads this
    {
      samples == PointCount(Traces()) && series == BucketCount(Traces()) && buckets.Keys == AllKeys(Traces())
    }

    constructor (plan: Plan, maxSamples: nat, maxSeries: nat)
      requires plan.Valid()
      ensures Counted() && Open() && Traces() == [] && buckets == map[] && !haveSource
      ensures this.plan == plan && this.maxSamples == maxSamples && this.maxSeries == maxSeries
    {
      this.plan, this.maxSamples, this.maxSeries := plan, maxSamples, maxSeries;
      buckets, columns, bounds, current, history := map[], [], [], [], [];
      sourceID, haveSource, grid, samples, series := 0, false, 0, 0, 0;
      done, full, cut := [], [], 0;
    }

    /** advance: evaluates the steps before `until`, or all that are left. */
    method Advance(until: int, finish: bool)
      requires CanAdvance()
      modifies this`grid, this`history, this`buckets, this`cut
      ensures CanAdvance() && grid >= old(grid) && buckets.Keys == old(buckets.Keys)
      ensures if finish then grid == plan.steps else grid == plan.steps || plan.Time(grid) >= until
      ensures !finish ==> forall i :: old(grid) <= i < grid ==> plan.Time(i) < until
      ensures grid == old(grid) ==> history == old(history) && cut == old(cut)
    {
      hide Ledger, Aligned, Ready, Distinct;
      while grid < plan.steps
        invariant CanAdvance() && grid >= old(grid) && buckets.Keys == old(buckets.Keys)
        invariant grid == old(grid) ==> history == old(history) && cut == old(cut)
        invariant !finish ==> forall i :: old(grid) <= i < grid ==> plan.Time(i) < until
        decreases plan.steps - grid
      {
        var timestamp := plan.start + grid * plan.call.step;
        if !finish && timestamp >= until {
          break;
        }
        if haveSource {
          history, buckets, cut := EvaluateStep(plan, columns, history, buckets, grid, full, cut, done);
        } else {
          NoSource(plan, columns, history, full, cut, grid);
        }
        grid := grid + 1;
      }
    }

    ghost predicate SameSource(sample: Sample)
      reads this
    {
      haveSource && sourceID == sample.id
    }

    /** The decision of add, check by check. */
    ghost function Verdict(sample: Sample): Outcome
      requires Valid()
      reads this
    {
      if !sample.cumulative || |sample.counts| != |sample.bounds| + 1 then Fallback
      else if maxSamples > 0 && |sample.counts| > maxSamples - samples then SampleLimit
      else if !SameSource(sample) && |sample.counts| > maxSeries - series then SeriesLimit
      else if !SameSource(sample) && OverBudget(plan, maxSamples, buckets.Keys, Keys(sample.bounds)) then Fallback
      else if SameSource(sample) && bounds != sample.bounds then Fallback
      else if Acceptable(if SameSource(sample) then full[0] else [], current, sample) then Accepted
      else Fallback
    }

    /** Ends the current source: its remaining steps are evaluated. */
    method CloseSource()
      requires Valid() && haveSource
      modifies this
      ensures Valid() && Open() && !haveSource && Traces() == old(Traces())
      ensures buckets.Keys == old(buckets.Keys) && samples == old(samples) && series == old(series)
    {
      hide Ledger, Ready, Suffices;
      Advance(0, true);
      LedgerClose(plan, buckets, done, Live());
      done := done + [Live()];
      haveSource := false;
      LedgerIgnoresLive(plan, buckets, done, Trace([], []), Live());
    }

    /** Starts a source: its columns, and empty histories. */
    method OpenSource(sample: Sample) returns (r: Outcome)
      requires Valid() && !haveSource && |sample.counts| == |sample.bounds| + 1
      modifies this`series, this`bounds, this`current, this`history, this`buckets, this`columns, this`grid,
               this`sourceID, this`haveSource, this`full, this`cut
      ensures r == if |sample.counts| > maxSeries - old(series) then SeriesLimit
                   else if OverBudget(plan, maxSamples, old(buckets.Keys), Keys(sample.bounds)) then Fallback
                   else Accepted
      ensures r.Accepted? ==> CanAdvance() && haveSource && sourceID == sample.id && grid == 0
      ensures r.Accepted? ==> Live() == Fresh(sample) && done == old(done) && bounds == sample.bounds
      ensures r.Accepted? ==> |current| == |sample.counts| && series == old(series) + |sample.counts|
      ensures r.Accepted? ==> buckets.Keys == old(buckets.Keys) + KeySet(Keys(sample.bounds))
    {
      hide Ledger, Ready, Suffices, OverBudget, Aligned, KeySet;
      if |sample.counts| > maxSeries - series {
        return SeriesLimit;
      }
      var ok, more, keys := OpenColumns(plan, maxSamples, buckets, Keys(sample.bounds), done, Live());
      if !ok {
        return Fallback;
      }
      series := series + |sample.counts|;
      StartSource(sample, more, keys);
      return Accepted;
    }

    /** The columns and empty histories of a new source. */
    method StartSource(sample: Sample, more: Columns, keys: seq<Bound>)
      requires plan.Valid() && Ledger(plan, more, done, Live(), 0) && |sample.counts| == |keys|
      requires keys == Keys(sample.bounds) && KeySet(keys) <= more.Keys
      modifies this`bounds, this`current, this`history, this`buckets, this`columns, this`grid,
               this`sourceID, this`haveSource, this`full, this`cut
      ensures CanAdvance() && haveSource && sourceID == sample.id && grid == 0
      ensures Live() == Fresh(sample) && bounds == sample.bounds && |current| == |sample.counts|
      ensures buckets == more
    {
      hide Ledger, Ready, Suffices, Aligned, KeySet, Keys, Distinct, Plan.Valid;
      KeysAreIn(keys);
      bounds, current, history := sample.bounds, seq(|sample.counts|, _ => 0.0), seq(|sample.counts|, _ => []);
      LedgerIgnoresLive(plan, more, done, old(Live()), Trace(keys, history));
      FreshIsReady(plan, keys, history);
      buckets, columns, grid, sourceID, haveSource := more, keys, 0, sample.id, true;
      full, cut := history, 0;
    }

    /** The head of add: a change of source closes the old one, and a new one is opened within
        the limits. */
    method Settle(sample: Sample) returns (r: Outcome)
      requires Open()
      modifies this
      ensures !r.Accepted? ==> r == old(Verdict(sample))
      ensures r.Accepted? ==> Current(sample) && sourceID == sample.id
      ensures r.Accepted? ==>
        old(Verdict(sample)) == if Acceptable(full[0], current, sample) then Accepted else Fallback
      ensures r.Accepted? ==> samples == old(samples) + |sample.counts|
      ensures r.Accepted? && old(SameSource(sample)) ==>
        Live() == old(Live()) && done == old(done) && series == old(series) && buckets.Keys == old(buckets.Keys)
      ensures r.Accepted? && !old(SameSource(sample)) ==>
        Live() == Fresh(sample) && done == old(Traces()) && series == old(series) + |sample.counts|
        && buckets.Keys == old(buckets.Keys) + KeySet(Keys(sample.bounds))
    {
      hide Ledger, Ready, Aligned, Suffices, OverBudget, GoodBounds, Running, KeySet;
      if haveSource && sourceID != sample.id {
        CloseSource();
      }
      if !sample.cumulative || |sample.counts| != |sample.bounds| + 1 {
        return Fallback;
      }
      if maxSamples > 0 && |sample.counts| > maxSamples - samples {
        return SampleLimit;
      }
      samples := samples + |sample.counts|;
      if !haveSource {
        r := OpenSource(sample);
        if !r.Accepted? {
          return;
        }
      } else if bounds != sample.bounds {
        return Fallback;
      }
      Newest();
      r := Accepted;
    }

    /** Reads one sample. An accepted sample extends the trace of its source by one cumulative
        point per bucket; the books stay right for every source read so far. */
    method Add(sample: Sample) returns (r: Outcome)
      requires Open() && Counted()
      modifies this
      ensures r == old(Verdict(sample))
      ensures r.Accepted? ==> Open() && Counted() && haveSource && sourceID == sample.id
      ensures r.Accepted? ==>
        var before := if old(SameSource(sample)) then old(Live()) else Fresh(sample);
        |before.points| == |sample.counts| && Live() == Extended(before, sample)
        && done == if old(SameSource(sample)) then old(done) else old(Traces())
    {
      hide Ledger, Ready, Aligned, Suffices, GoodBounds, Running, KeySet, PointCount, BucketCount, AllKeys, PointsIn,
           Acceptable, Verdict, CanAdvance;
      r := Settle(sample);
      if !r.Accepted? {
        return;
      }
      ghost var before := Live();
      r := AddToSource(sample);
      if r.Accepted? {
        FreshCounts(sample);
        ExtendedCounts(before, sample);
        CountsOfMore(done, before);
        CountsOfMore(done, Live());
      }
    }

    /** Ready for a sample of the current source: just opened, or with a newest sample. */
    ghost predicate Current(sample: Sample)
      reads this
    {
      CanAdvance() && haveSource && bounds == sample.bounds && columns == Keys(bounds)
      && |current| == |columns| == |full| == |sample.counts|
      && (full[0] == [] ==> grid == 0)
      && (full[0] != [] ==>
            cut < |full[0]|
            && (forall b :: 0 <= b < |columns| ==> |full[b]| == |full[0]| && current[b] == full[b][|full[b]| - 1].v)
            && (grid > 0 ==> plan.Time(grid - 1) < full[0][|full[0]| - 1].t))
    }

    /** The part of add after the source is settled. */
    method AddToSource(sample: Sample) returns (r: Outcome)
      requires Current(sample)
      modifies this`grid, this`history, this`buckets, this`cut, this`current, this`full
      ensures r == if Acceptable(old(full[0]), old(current), sample) then Accepted else Fallback
      ensures r.Accepted? ==> Open() && buckets.Keys == old(buckets.Keys)
      ensures r.Accepted? ==> |old(full)| == |sample.counts| && Live() == Extended(old(Live()), sample)
    {
      hide Ledger, Ready, Suffices, GoodBounds, Running, Aligned, CanAdvance, Acceptable;
      Newest();
      ghost var from, points := grid, full[0];
      ghost var newest := if points == [] then sample.t - 1 else points[|points| - 1].t;
      Advance(sample.t, false);
      Newest();
      assert grid > from ==> plan.Time(from) < sample.t;
      EarlierSteps(plan, from, grid, newest, sample.t);
      SameVerdict(points, history[0], current, sample);
      var ok, next := Decide(history[0], current, sample);
      if !ok {
        return Fallback;
      }
      InOrder(points, current, sample);
      Append(sample, next);
      return Accepted;
    }

    /** The newest point is where the history says, and not after the next step. */
    lemma Newest()
      requires CanAdvance()
      ensures plan.Valid() && grid <= plan.steps && |columns| == |history| == |full|
      ensures full != [] ==> cut <= |full[0]| && history[0] == full[0][cut..]
      ensures grid < plan.steps && full != [] && full[0] != [] ==> full[0][|full[0]| - 1].t <= plan.Time(grid)
    {
    }

    /** The append loop of add. */
    method Append(sample: Sample, next: seq<real>)
      requires CanAdvance() && haveSource && columns == Keys(bounds) && bounds == sample.bounds && GoodBounds(bounds)
      requires |columns| == |full| == |sample.counts| == |next|
      requires forall b :: 0 <= b < |next| ==> next[b] == Running(sample.counts, b + 1) as real
      requires full[0] != [] ==> full[0][|full[0]| - 1].t <= sample.t
      requires grid < plan.steps ==> sample.t <= plan.Time(grid)
      requires forall i: nat :: i < grid ==> plan.Time(i) < sample.t
      modifies this`history, this`current, this`full
      ensures Open() && Live() == Extended(old(Live()), sample)
    {
      hide Ledger, Ready, Suffices, GoodBounds, Running, Aligned;
      Newest();
      current := next;
      var more := AppendPoints(history, sample.t, current);
      AppendKeeps(plan, buckets, done, history, cut, grid, Live(), sample, more);
      GoodBoundsAreDistinct(bounds);
      history := more;
      full := Extended(Live(), sample).points;
      LastOfHistory(columns, history, full, cut);
    }

    /** The result: every column holds the sum over all sources, at every step. */
    method Result()
      requires Valid() && Counted()
      modifies this`grid, this`history, this`buckets, this`cut
      ensures Valid() && grid == plan.steps && buckets.Keys == old(buckets.Keys) && Traces() == old(Traces())
      ensures forall t, key :: t in Traces() && key in t.keys ==> key in buckets
      ensures forall key, i: nat :: key in buckets && i < plan.steps ==>
        i < |buckets[key]| && buckets[key][i].Read() == SumOverSources(plan, Traces(), key, i)
    {
      hide Ready, Suffices;
      KeysOfTraces(Traces());
      Advance(0, true);
      if haveSource {
        LedgerClose(plan, buckets, done, Live());
      }
    }
  }

  /** Steps evaluated before the newest sample, and since then before the next one, all lie
      before the next one. */
  lemma EarlierSteps(plan: Plan, from: nat, to: nat, newest: int, t: int)
    requires plan.Valid() && (from > 0 ==> plan.Time(from - 1) < newest)
    requires forall i: nat :: from <= i < to ==> plan.Time(i) < t
    ensures newest <= t ==> forall i: nat :: i < to ==> plan.Time(i) < t
  {
    forall i: nat | i < from ensures plan.Time(i) <= plan.Time(from - 1) {
      assert i * plan.call.step <= (from - 1) * plan.call.step by {
        assert (from - 1 - i) * plan.call.step >= 0;
        assert (from - 1 - i) * plan.call.step == (from - 1) * plan.call.step - i * plan.call.step;
      }
    }
  }

  /** A history that is not empty ends with the newest point. */
  lemma LastOfHistory(columns: seq<Bound>, history: seq<seq<Point>>, full: seq<seq<Point>>, cut: nat)
    requires Aligned(columns, history, full, cut) && full != []
    ensures |columns| == |history| == |full| && cut <= |full[0]| && history[0] == full[0][cut..]
    ensures history[0] != [] ==> full[0] != [] && history[0][|history[0]| - 1] == full[0][|full[0]| - 1]
    ensures forall b :: 0 <= b < |full| ==> |full[b]| == |full[0]|
  {
    forall b | 0 <= b < |full| ensures |full[b]| == |full[0]| {
      assert SameTimes(full[0], full[b]);
    }
  }

  /** With no step evaluated, the books do not depend on the current source. */
  lemma LedgerIgnoresLive(plan: Plan, buckets: Columns, done: seq<Trace>, live: Trace, other: Trace)
    requires plan.Valid() && Ledger(plan, buckets, done, live, 0)
    ensures Ledger(plan, buckets, done, other, 0)
  {
    forall key, i: nat | key in buckets && i < plan.steps
      ensures CellHolds(plan, buckets[key][i], done, other, 0, key, i)
    {
      assert CellHolds(plan, buckets[key][i], done, live, 0, key, i);
    }
  }

  /** The append loop of add. */
  method AppendPoints(history: seq<seq<Point>>, t: int, values: seq<real>) returns (more: seq<seq<Point>>)
    requires |history| == |values|
    ensures |more| == |history| && forall b :: 0 <= b < |more| ==> more[b] == history[b] + [Point(t, values[b])]
  {
    more := history;
    for index := 0 to |values|
      invariant |more| == |history|
      invariant forall b :: 0 <= b < index ==> more[b] == history[b] + [Point(t, values[b])]
      invariant forall b :: index <= b < |more| ==> more[b] == history[b]
    {
      more := more[index := more[index] + [Point(t, values[index])]];
    }
  }

  lemma AppendAligns(history: seq<seq<Point>>, cut: nat, live: Trace, sample: Sample, more: seq<seq<Point>>)
    requires Aligned(live.keys, history, live.points, cut)
    requires live.points != [] && (live.points[0] != [] ==> live.points[0][|live.points[0]| - 1].t <= sample.t)
    requires |live.points| == |sample.counts| == |history| == |more|
    requires forall b :: 0 <= b < |more| ==> more[b] == history[b] + [PointOf(sample, b)]
    ensures var next := Extended(live, sample);
      Aligned(next.keys, more, next.points, cut)
      && forall b :: 0 <= b < |next.points| ==> next.points[b] == live.points[b] + [PointOf(sample, b)]
  {
    var next := Extended(live, sample);
    forall b | 0 <= b < |next.points|
      ensures Sorted(next.points[b]) && SameTimes(next.points[0], next.points[b])
      ensures more[b] == next.points[b][cut..]
    {
      assert SameTimes(live.points[0], live.points[b]);
    }
  }

  lemma AppendReady(plan: Plan, points: seq<seq<Point>>, next: seq<seq<Point>>, cut: nat, i: nat, t: int)
    requires plan.Valid() && Ready(plan, points, cut, i) && t <= plan.Time(i)
    requires points != [] && next != [] && |next[0]| == |points[0]| + 1 && next[0][..|points[0]|] == points[0]
    requires next[0][|points[0]|].t == t
    ensures Ready(plan, next, cut, i)
  {
    forall j | 0 <= j < cut && points[0][j].t <= plan.Oldest(i) ensures next[0][j].t <= plan.Oldest(i) {
      assert next[0][..|points[0]|][j] == next[0][j];
    }
  }

  /** Appending a sample at or after the newest one keeps the histories and the books. */
  lemma AppendKeeps(plan: Plan, buckets: Columns, done: seq<Trace>, history: seq<seq<Point>>, cut: nat, grid: nat,
                    live: Trace, sample: Sample, more: seq<seq<Point>>)
    requires plan.Valid() && grid <= plan.steps && Aligned(live.keys, history, live.points, cut)
    requires Ledger(plan, buckets, done, live, grid)
    requires grid < plan.steps ==> Ready(plan, live.points, cut, grid) && sample.t <= plan.Time(grid)
    requires forall i: nat :: i < grid ==> plan.Time(i) < sample.t
    requires live.points != [] && (live.points[0] != [] ==> live.points[0][|live.points[0]| - 1].t <= sample.t)
    requires |live.points| == |sample.counts| == |history| == |more|
    requires forall b :: 0 <= b < |more| ==> more[b] == history[b] + [PointOf(sample, b)]
    ensures var next := Extended(live, sample);
      Aligned(next.keys, more, next.points, cut) && Ledger(plan, buckets, done, next, grid)
      && (grid < plan.steps ==> Ready(plan, next.points, cut, grid))
  {
    hide Ledger, Ready, Extended, Aligned, Plan.Valid, Plan.Time, PointOf, Sorted, SameTimes;
    var next := Extended(live, sample);
    AppendAligns(history, cut, live, sample, more);
    AlignedParts(live.keys, history, live.points, cut);
    AlignedParts(next.keys, more, next.points, cut);
    forall b | 0 <= b < |live.points|
      ensures next.points[b] != [] && next.points[b][..|next.points[b]| - 1] == live.points[b]
      ensures next.points[b][|next.points[b]| - 1].t == sample.t {
      NextPoint(live.points[b], sample, b, next.points[b]);
    }
    LedgerAppend(plan, buckets, done, live, next, grid);
    if grid < plan.steps {
      AppendReady(plan, live.points, next.points, cut, grid, sample.t);
    }
  }

  lemma AlignedParts(columns: seq<Bound>, history: seq<seq<Point>>, full: seq<seq<Point>>, cut: nat)
    requires Aligned(columns, history, full, cut)
    ensures |columns| == |history| == |full| && forall b :: 0 <= b < |full| ==> Sorted(full[b])
  {
  }

  lemma NextPoint(points: seq<Point>, sample: Sample, b: nat, next: seq<Point>)
    requires b < |sample.counts| && next == points + [PointOf(sample, b)]
    ensures next != [] && next[..|next| - 1] == points && next[|points|].t == sample.t
  {
  }

  lemma FreshIsReady(plan: Plan, columns: seq<Bound>, full: seq<seq<Point>>)
    requires plan.Valid() && |columns| == |full| && forall b :: 0 <= b < |full| ==> full[b] == []
    ensures Ready(plan, full, 0, 0) && Aligned(columns, full, full, 0)
  {
  }

  lemma NoSource(plan: Plan, columns: seq<Bound>, history: seq<seq<Point>>, full: seq<seq<Point>>, cut: nat, i: nat)
    requires plan.Valid() && full == []
    ensures Ready(plan, full, cut, i + 1)
  {
  }
}
