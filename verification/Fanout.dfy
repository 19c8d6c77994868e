/** LogQL range aggregations: the bucket-and-fan-out SQL plan against direct evaluation of each
    window. Times are integer nanoseconds, values exact reals. */
module Fanout {
  import opened Options
  import opened Samples
  import opened Arithmetic

  /** A log row after the selector: the labels it is grouped by, its time, the length of its
      line, and its unwrapped value when it has one. */
  datatype Row = Row(key: string, ts: int, bytes: nat, unwrap: Option<real>)

  datatype Function = CountOverTime | Rate | BytesOverTime | BytesRate
                    | SumOverTime | AvgOverTime | MinOverTime | MaxOverTime | Stdvar | Stddev
  {
    predicate ReadsValues() {
      SumOverTime? || AvgOverTime? || MinOverTime? || MaxOverTime? || Stdvar? || Stddev?
    }
  }

  /** What a query fixes: the function, its window in nanoseconds, and the square root the
      server uses. */
  datatype Call = Call(fn: Function, window: int, sqrt: real -> real) {
    ghost predicate Valid() { window > 0 }
  }

  /** Evaluation points start, start + step, ..., up to end. */
  datatype Plan = Plan(start: int, end: int, step: int, window: int) {
    /** The conditions under which the server picks this plan. */
    ghost predicate Valid() { step > 0 && window > 0 && window % step == 0 }

    ghost predicate Aligned() requires step > 0 { start % step == 0 }

    function Points(): nat
      requires step > 0
    {
      if end < start then 0 else (end - start) / step + 1
    }

    function Eval(i: int): int { start + i * step }
  }

  // ---------------------------------------------------------------- rounding

  function Bucket(ts: int, step: int): int
    requires step > 0
  {
    TruncDiv(ts + step - 1, step) * step
  }

  /** The least multiple of step at or after ts. */
  ghost predicate RoundsUp(ts: int, step: int, b: int)
    requires step > 0
  {
    b % step == 0 && ts <= b < ts + step
  }

  /** Before the epoch intDiv rounds the wrong way, except where there is nothing to round. */
  predicate Roundable(ts: int, step: int)
    requires step > 0
  {
    ts > -step || (ts - 1) % step == 0
  }

  /** The bucket of a row is its rounded-up time exactly when the time is roundable; otherwise
      it is one step late. */
  lemma BucketRoundsUpIff(ts: int, step: int)
    requires step > 0
    ensures RoundsUp(ts, step, Bucket(ts, step)) <==> Roundable(ts, step)
    ensures !Roundable(ts, step) ==> RoundsUp(ts, step, Bucket(ts, step) - step)
  {
    if ts > -step {
      LaterBucket(ts, step);
    } else {
      EarlyBucket(ts, step);
    }
  }

  lemma LaterBucket(ts: int, step: int)
    requires step > 0 && ts > -step
    ensures RoundsUp(ts, step, Bucket(ts, step))
  {
    var a := ts + step - 1;
    Multiple(a / step, step);
    assert a == (a / step) * step + a % step;
  }

  lemma EarlyBucket(ts: int, step: int)
    requires step > 0 && ts <= -step
    ensures RoundsUp(ts, step, Bucket(ts, step)) <==> (ts - 1) % step == 0
    ensures (ts - 1) % step != 0 ==> RoundsUp(ts, step, Bucket(ts, step) - step)
  {
    var a := ts + step - 1;
    var (q, r) := (-a / step, -a % step);
    assert -a == q * step + r;
    assert Bucket(ts, step) == -q * step == a + r;
    Multiple(-q, step);
    Multiple(-q - 1, step);
    assert (-q - 1) * step == -q * step - step;
    NegatedRemainder(a, step);
    assert ts - 1 == a + (-1) * step;
    ShiftedRemainder(a, -1, step);
  }

  // ---------------------------------------------------------------- fan-out

  /** The evaluation point the first repeat of a bucket lands on. */
  function First(p: Plan, b: int): int
    requires p.step > 0
  {
    p.start + TruncDiv(Max(b - p.start, 0) + p.step - 1, p.step) * p.step
  }

  function Repeats(p: Plan): int
    requires p.step > 0
  {
    Max(1, Min(p.window / p.step, p.Points()))
  }

  /** The WHERE clause over the repeated rows. */
  predicate Passes(p: Plan, b: int, e: int) {
    p.start <= e <= p.end && e - p.window < b <= e
  }

  function FanOutFrom(p: Plan, b: int, k: nat): seq<int>
    requires p.step > 0
    decreases Repeats(p) - k
  {
    if k >= Repeats(p) then []
    else
      var e := First(p, b) + k * p.step;
      (if Passes(p, b, e) then [e] else []) + FanOutFrom(p, b, k + 1)
  }

  function FanOut(p: Plan, b: int): seq<int>
    requires p.step > 0
  {
    FanOutFrom(p, b, 0)
  }

  lemma {:induction false} FanOutMembers(p: Plan, b: int, k: nat, e: int)
    requires p.step > 0
    ensures e in FanOutFrom(p, b, k)
       <==> Passes(p, b, e) && (e - First(p, b)) % p.step == 0 && k <= (e - First(p, b)) / p.step < Repeats(p)
    decreases Repeats(p) - k
  {
    hide First, Passes, Repeats;
    if k < Repeats(p) {
      FanOutMembers(p, b, k + 1, e);
      QuotientIs(e - First(p, b), k, p.step);
    }
  }

  /** A point of the fan-out does not come again. */
  lemma LaterPoints(p: Plan, b: int, k: nat)
    requires p.step > 0
    ensures First(p, b) + k * p.step !in FanOutFrom(p, b, k + 1)
  {
    hide First, Passes, Repeats, FanOutFrom;
    var now := First(p, b) + k * p.step;
    FanOutMembers(p, b, k + 1, now);
    QuotientIs(now - First(p, b), k, p.step);
  }

  ghost predicate OnGrid(p: Plan, e: int)
    requires p.step > 0
  {
    p.start <= e <= p.end && (e - p.start) % p.step == 0
  }

  /** The grid is what direct evaluation loops over. */
  lemma GridIsPoints(p: Plan, e: int)
    requires p.step > 0
    ensures OnGrid(p, e) <==> exists i :: 0 <= i < p.Points() && e == p.Eval(i)
  {
    if OnGrid(p, e) {
      var i := GridIndex(p, e);
    }
    if i :| 0 <= i < p.Points() && e == p.Eval(i) {
      IndexOnGrid(p, i);
    }
  }

  lemma GridIndex(p: Plan, e: int) returns (i: int)
    requires p.step > 0 && OnGrid(p, e)
    ensures 0 <= i < p.Points() && e == p.Eval(i)
  {
    var last := (p.end - p.start) / p.step;
    assert p.end - p.start == last * p.step + (p.end - p.start) % p.step;
    i := (e - p.start) / p.step;
    QuotientIs(e - p.start, i, p.step);
    Compare(last, i, p.step);
    Compare(0, i, p.step);
    Compare(i, -1, p.step);
  }

  lemma IndexOnGrid(p: Plan, i: int)
    requires p.step > 0 && 0 <= i < p.Points()
    ensures OnGrid(p, p.Eval(i))
  {
    var last := (p.end - p.start) / p.step;
    assert p.end - p.start == last * p.step + (p.end - p.start) % p.step;
    Multiple(i, p.step);
    Compare(0, i, p.step);
    Compare(i, last, p.step);
  }

  /** The first repeat lands on the first grid point at or after the bucket. */
  lemma FirstIsFirst(p: Plan, b: int, i: int)
    requires p.step > 0
    ensures First(p, b) >= p.start && First(p, b) >= b
    ensures (First(p, b) - p.start) % p.step == 0
    ensures b <= p.Eval(i) && 0 <= i ==> First(p, b) <= p.Eval(i)
  {
    var a := Max(b - p.start, 0);
    var n := (a + p.step - 1) / p.step;
    assert a + p.step - 1 == n * p.step + (a + p.step - 1) % p.step;
    Multiple(n, p.step);
    MulMonotone(0, n, p.step);
    Compare(0, i, p.step);
    Compare(i, n, p.step);
  }

  /** The cap on the repeat count drops nothing: a bucket is delivered to exactly the
      evaluation points whose window contains it. */
  lemma FanOutDelivers(p: Plan, b: int, e: int)
    requires p.Valid()
    ensures e in FanOut(p, b) <==> OnGrid(p, e) && e - p.window < b <= e
  {
    hide FanOutFrom, First, Repeats;
    var first := First(p, b);
    FanOutMembers(p, b, 0, e);
    FirstIsFirst(p, b, (e - p.start) / p.step);
    if e in FanOut(p, b) {
      SumOfMultiples(e - first, first - p.start, p.step);
    } else if OnGrid(p, e) && e - p.window < b <= e {
      RepeatsSuffice(p, b, e);
    }
  }

  lemma RepeatsSuffice(p: Plan, b: int, e: int)
    requires p.Valid() && OnGrid(p, e) && e - p.window < b <= e
    ensures (e - First(p, b)) % p.step == 0 && 0 <= (e - First(p, b)) / p.step < Repeats(p)
  {
    hide First;
    var (first, step) := (First(p, b), p.step);
    var (i, n, w, last) := ((e - p.start) / step, (first - p.start) / step, p.window / step, (p.end - p.start) / step);
    assert e - p.start == i * step by { QuotientIs(e - p.start, i, step); }
    FirstIsFirst(p, b, i);
    assert first - p.start == n * step by { QuotientIs(first - p.start, n, step); }
    assert p.window == w * step by { QuotientIs(p.window, w, step); }
    assert p.end - p.start == last * step + (p.end - p.start) % step;
    assert e - first == (i - n) * step;
    QuotientIs(e - first, i - n, step);
    Compare(0, i - n, step);
    Compare(0, n, step);
    Compare(w, i - n, step);
    Compare(last, i, step);
  }

  /** Main result on delivery: with an aligned start a row reaches exactly the evaluation
      points whose window (eval - window, eval] contains it. */
  lemma RowIsDelivered(p: Plan, ts: int, e: int)
    requires p.Valid() && p.Aligned() && OnGrid(p, e) && Roundable(ts, p.step)
    ensures e in FanOut(p, Bucket(ts, p.step)) <==> e - p.window < ts <= e
  {
    hide FanOut, Bucket, Roundable;
    var b := Bucket(ts, p.step);
    BucketRoundsUpIff(ts, p.step);
    FanOutDelivers(p, b, e);
    GridIsAligned(p, e);
    SameSide(ts, b, e, p.step);
    assert (e - p.window) % p.step == 0 by {
      SumOfMultiples(e - p.window, p.window, p.step);
    }
    SameSide(ts, b, e - p.window, p.step);
  }

  lemma GridIsAligned(p: Plan, e: int)
    requires p.step > 0 && p.Aligned() && (e - p.start) % p.step == 0
    ensures e % p.step == 0
  {
    SumOfMultiples(p.start, e - p.start, p.step);
  }

  /** Rounding up does not cross a multiple of the step. */
  lemma SameSide(ts: int, b: int, m: int, step: int)
    requires step > 0 && RoundsUp(ts, step, b) && m % step == 0
    ensures b <= m <==> ts <= m
  {
    var i, j := b / step, m / step;
    assert b == i * step && m == j * step;
    Compare(j, i, step);
  }

  /** Without an aligned start the plan is wrong: a row exactly at an evaluation point is in the
      window of that point and is never delivered to it. */
  lemma UnalignedStartMissesRow(p: Plan, e: int)
    requires p.Valid() && !p.Aligned() && OnGrid(p, e) && e >= 0
    ensures e - p.window < e <= e && e !in FanOut(p, Bucket(e, p.step))
  {
    BucketRoundsUpIff(e, p.step);
    FanOutDelivers(p, Bucket(e, p.step), e);
    SumOfMultiples(p.start, e - p.start, p.step);
  }

  /** Nor does it hold for a row that cannot be rounded: the evaluation point at its rounded-up
      time sees the row, and the plan does not deliver it there. */
  lemma UnroundableRowIsMissed(p: Plan, ts: int)
    requires p.Valid() && !Roundable(ts, p.step)
    ensures ts <= Bucket(ts, p.step) - p.step < ts + p.window
    ensures Bucket(ts, p.step) - p.step !in FanOut(p, Bucket(ts, p.step))
    ensures p.Aligned() && p.start <= Bucket(ts, p.step) - p.step <= p.end ==> OnGrid(p, Bucket(ts, p.step) - p.step)
  {
    WindowHoldsStep(p);
    hide FanOut, Bucket, Roundable, RoundsUp, OnGrid, Plan.Valid, Plan.Aligned;
    var b := Bucket(ts, p.step);
    BucketRoundsUpIff(ts, p.step);
    FanOutDelivers(p, b, b - p.step);
    RoundedPoint(p, ts, b - p.step);
  }

  lemma RoundedPoint(p: Plan, ts: int, e: int)
    requires p.step > 0 && RoundsUp(ts, p.step, e)
    ensures ts <= e < ts + p.step
    ensures p.Aligned() && p.start <= e <= p.end ==> OnGrid(p, e)
  {
    if p.Aligned() {
      DifferenceOfMultiples(e, p.start, p.step);
    }
  }

  lemma DifferenceOfMultiples(x: int, y: int, step: int)
    requires step > 0 && x % step == 0 && y % step == 0
    ensures (x - y) % step == 0
  {
    SumOfMultiples(x - y, y, step);
  }

  lemma WindowHoldsStep(p: Plan)
    requires p.Valid()
    ensures 0 < p.step <= p.window
  {
    assert p.window == (p.window / p.step) * p.step;
    Compare(0, p.window / p.step, p.step);
  }

  // ---------------------------------------------------------------- aggregation

  /** One group of the bucket scan: log_count or value_count, byte_count, value_sum,
      value_sum_squares, value_min and value_max. */
  datatype Agg = Agg(count: nat, bytes: nat, sum: real, squares: real, least: real, greatest: real)

  function Measure(r: Row): real { if r.unwrap.Some? then r.unwrap.value else 0.0 }

  function OfRow(r: Row): Agg {
    var v := Measure(r);
    Agg(1, r.bytes, v, v * v, v, v)
  }

  function Merge(a: Option<Agg>, b: Option<Agg>): Option<Agg> {
    match (a, b)
    case (None, _) => b
    case (_, None) => a
    case (Some(x), Some(y)) =>
      Some(Agg(x.count + y.count, x.bytes + y.bytes, x.sum + y.sum, x.squares + y.squares,
               if x.least <= y.least then x.least else y.least,
               if x.greatest >= y.greatest then x.greatest else y.greatest))
  }

  lemma MergeIsAssociative(a: Option<Agg>, b: Option<Agg>, c: Option<Agg>)
    ensures Merge(Merge(a, b), c) == Merge(a, Merge(b, c))
  {
  }

  lemma MergeCommutes(a: Option<Agg>, b: Option<Agg>)
    ensures Merge(a, b) == Merge(b, a)
  {
  }

  function Summary(rows: seq<Row>): Option<Agg> {
    if rows == [] then None else Merge(Summary(rows[..|rows| - 1]), Some(OfRow(rows[|rows| - 1])))
  }

  function Keep(rows: seq<Row>, keep: Row -> bool): seq<Row> {
    if rows == [] then []
    else
      var n := |rows| - 1;
      Keep(rows[..n], keep) + if keep(rows[n]) then [rows[n]] else []
  }

  lemma {:induction false} KeepSame(rows: seq<Row>, f: Row -> bool, g: Row -> bool)
    requires forall r :: r in rows ==> f(r) == g(r)
    ensures Keep(rows, f) == Keep(rows, g)
  {
    if rows != [] {
      KeepSame(rows[..|rows| - 1], f, g);
    }
  }

  function Both(f: Row -> bool, g: Row -> bool): Row -> bool { (r: Row) => f(r) && g(r) }

  lemma {:induction false} KeepTwice(rows: seq<Row>, f: Row -> bool, g: Row -> bool)
    ensures Keep(Keep(rows, f), g) == Keep(rows, Both(f, g))
  {
    if rows != [] {
      var n := |rows| - 1;
      KeepTwice(rows[..n], f, g);
      var kept := Keep(rows[..n], f);
      if f(rows[n]) {
        assert (kept + [rows[n]])[..|kept|] == kept;
      } else {
        assert kept + [] == kept;
      }
    }
  }

  lemma {:induction false} KeptRows(rows: seq<Row>, f: Row -> bool, r: Row)
    ensures r in Keep(rows, f) <==> r in rows && f(r)
  {
    if rows != [] {
      KeptRows(rows[..|rows| - 1], f, r);
    }
  }

  lemma SummaryOfMore(rows: seq<Row>, r: Row)
    ensures Summary(rows + [r]) == Merge(Summary(rows), Some(OfRow(r)))
  {
    assert (rows + [r])[..|rows|] == rows;
  }

  /** Aggregating two disjoint selections and merging is aggregating their union, whatever the
      order of the rows. */
  lemma {:induction false} SummaryOfUnion(rows: seq<Row>, f: Row -> bool, g: Row -> bool, both: Row -> bool)
    requires forall r :: r in rows ==> both(r) == (f(r) || g(r)) && !(f(r) && g(r))
    ensures Summary(Keep(rows, both)) == Merge(Summary(Keep(rows, f)), Summary(Keep(rows, g)))
  {
    if rows != [] {
      var n := |rows| - 1;
      var (kf, kg, kb) := (Keep(rows[..n], f), Keep(rows[..n], g), Keep(rows[..n], both));
      var last := Some(OfRow(rows[n]));
      SummaryOfUnion(rows[..n], f, g, both);
      SummaryOfMore(kf, rows[n]);
      SummaryOfMore(kg, rows[n]);
      SummaryOfMore(kb, rows[n]);
      assert kf + [] == kf && kg + [] == kg && kb + [] == kb;
      hide Merge, OfRow, Summary;
      MergeIsAssociative(Summary(kf), Summary(kg), last);
      MergeIsAssociative(Summary(kf), last, Summary(kg));
      MergeCommutes(Summary(kg), last);
    }
  }

  // ---------------------------------------------------------------- the SQL plan

  datatype Group = Group(key: string, bucket: int)
  datatype Joined = Joined(key: string, eval: int, agg: Agg)

  function InGroup(g: Group, step: int): Row -> bool
    requires step > 0
  {
    (r: Row) => r.key == g.key && Bucket(r.ts, step) == g.bucket
  }

  /** The result of the bucket scan in any order: one line for each group that has a row. */
  ghost predicate IsScan(rows: seq<Row>, step: int, groups: seq<Group>)
    requires step > 0
  {
    (forall i, j :: 0 <= i < j < |groups| ==> groups[i] != groups[j])
    && (forall r :: r in rows ==> Group(r.key, Bucket(r.ts, step)) in groups)
    && (forall g :: g in groups ==> Keep(rows, InGroup(g, step)) != [])
  }

  function Spread(key: string, evals: seq<int>, agg: Agg): seq<Joined> {
    if evals == [] then [] else [Joined(key, evals[0], agg)] + Spread(key, evals[1..], agg)
  }

  /** The scan joined with its fan-out. */
  function Join(p: Plan, rows: seq<Row>, groups: seq<Group>): seq<Joined>
    requires p.step > 0
  {
    if groups == [] then []
    else
      var n := |groups| - 1;
      var agg := Summary(Keep(rows, InGroup(groups[n], p.step)));
      Join(p, rows, groups[..n])
      + if agg.Some? then Spread(groups[n].key, FanOut(p, groups[n].bucket), agg.value) else []
  }

  /** The outer GROUP BY of one key and evaluation point; no line when nothing reaches it. */
  function Collect(joined: seq<Joined>, key: string, e: int): Option<Agg> {
    if joined == [] then None
    else
      var n := |joined| - 1;
      Merge(Collect(joined[..n], key, e),
            if joined[n].key == key && joined[n].eval == e then Some(joined[n].agg) else None)
  }

  lemma {:induction false} CollectOfBoth(a: seq<Joined>, b: seq<Joined>, key: string, e: int)
    ensures Collect(a + b, key, e) == Merge(Collect(a, key, e), Collect(b, key, e))
  {
    if b == [] {
      assert a + b == a;
    } else {
      var n := |b| - 1;
      assert (a + b)[..|a| + n] == a + b[..n];
      CollectOfBoth(a, b[..n], key, e);
      var last := if b[n].key == key && b[n].eval == e then Some(b[n].agg) else None;
      MergeIsAssociative(Collect(a, key, e), Collect(b[..n], key, e), last);
    }
  }

  lemma CollectOne(j: Joined, key: string, e: int)
    ensures Collect([j], key, e) == if j.key == key && j.eval == e then Some(j.agg) else None
  {
    assert [j][..0] == [];
  }

  lemma CollectNothing(key: string, e: int)
    ensures Collect([], key, e) == None
  {
  }

  /** A group is delivered at most once to each evaluation point. */
  lemma {:induction false} CollectSpread(p: Plan, g: Group, k: nat, agg: Agg, key: string, e: int)
    requires p.step > 0
    ensures Collect(Spread(g.key, FanOutFrom(p, g.bucket, k), agg), key, e)
         == if g.key == key && e in FanOutFrom(p, g.bucket, k) then Some(agg) else None
    decreases Repeats(p) - k
  {
    hide Repeats, Passes, First, Collect;
    CollectNothing(key, e);
    if k < Repeats(p) {
      CollectSpread(p, g, k + 1, agg, key, e);
      var now := First(p, g.bucket) + k * p.step;
      var rest := FanOutFrom(p, g.bucket, k + 1);
      LaterPoints(p, g.bucket, k);
      if Passes(p, g.bucket, now) {
        assert FanOutFrom(p, g.bucket, k) == [now] + rest;
        assert ([now] + rest)[1..] == rest;
        CollectOfBoth([Joined(g.key, now, agg)], Spread(g.key, rest, agg), key, e);
        CollectOne(Joined(g.key, now, agg), key, e);
      } else {
        assert [] + rest == rest;
      }
    }
  }

  function Reached(p: Plan, groups: seq<Group>, key: string, e: int): Row -> bool
    requires p.step > 0
  {
    (r: Row) => r.key == key && Group(key, Bucket(r.ts, p.step)) in groups && e in FanOut(p, Bucket(r.ts, p.step))
  }

  lemma {:induction false} CollectIsSummary(p: Plan, rows: seq<Row>, groups: seq<Group>, key: string, e: int)
    requires p.step > 0
    requires forall i, j :: 0 <= i < j < |groups| ==> groups[i] != groups[j]
    ensures Collect(Join(p, rows, groups), key, e) == Summary(Keep(rows, Reached(p, groups, key, e)))
  {
    hide FanOut, Bucket, Merge, Summary, Spread, Collect;
    if groups == [] {
      NoneReached(p, rows, key, e);
    } else {
      var n := |groups| - 1;
      var g, before := groups[n], groups[..n];
      CollectIsSummary(p, rows, before, key, e);
      assert g !in before;
      assert groups == before + [g];
      LastGroup(p, rows, g, key, e);
      var agg := Summary(Keep(rows, InGroup(g, p.step)));
      CollectOfBoth(Join(p, rows, before),
                    if agg.Some? then Spread(g.key, FanOut(p, g.bucket), agg.value) else [], key, e);
      SummaryOfUnion(rows, Reached(p, before, key, e), Reached(p, [g], key, e), Reached(p, groups, key, e));
    }
  }

  lemma NoneReached(p: Plan, rows: seq<Row>, key: string, e: int)
    requires p.step > 0
    ensures Summary(Keep(rows, Reached(p, [], key, e))) == None == Collect([], key, e)
  {
    var kept := Keep(rows, Reached(p, [], key, e));
    if kept != [] {
      KeptRows(rows, Reached(p, [], key, e), kept[0]);
    }
  }

  lemma LastGroup(p: Plan, rows: seq<Row>, g: Group, key: string, e: int)
    requires p.step > 0
    ensures (var agg := Summary(Keep(rows, InGroup(g, p.step)));
             Summary(Keep(rows, Reached(p, [g], key, e)))
             == Collect(if agg.Some? then Spread(g.key, FanOut(p, g.bucket), agg.value) else [], key, e))
  {
    hide Bucket, Merge, Spread, FanOutFrom;
    var agg := Summary(Keep(rows, InGroup(g, p.step)));
    if agg.Some? {
      CollectSpread(p, g, 0, agg.value, key, e);
    }
    if g.key == key && e in FanOut(p, g.bucket) {
      KeepSame(rows, Reached(p, [g], key, e), InGroup(g, p.step));
    } else {
      var kept := Keep(rows, Reached(p, [g], key, e));
      if kept != [] {
        KeptRows(rows, Reached(p, [g], key, e), kept[0]);
      }
    }
  }

  function InWindow(key: string, lo: int, hi: int): Row -> bool {
    (r: Row) => r.key == key && lo < r.ts <= hi
  }

  /** The rows one evaluation point aggregates. */
  function Window(rows: seq<Row>, key: string, lo: int, hi: int): seq<Row> {
    Keep(rows, InWindow(key, lo, hi))
  }

  /** Two-stage aggregation over the fan-out equals aggregating each window's rows. */
  lemma CollectIsWindow(p: Plan, rows: seq<Row>, groups: seq<Group>, key: string, e: int)
    requires p.Valid() && p.Aligned() && OnGrid(p, e) && IsScan(rows, p.step, groups)
    requires forall r :: r in rows ==> Roundable(r.ts, p.step)
    ensures Collect(Join(p, rows, groups), key, e) == Summary(Window(rows, key, e - p.window, e))
  {
    hide FanOut, Bucket, Roundable, Collect, Join, Summary;
    CollectIsSummary(p, rows, groups, key, e);
    forall r | r in rows ensures Reached(p, groups, key, e)(r) == InWindow(key, e - p.window, e)(r) {
      RowIsDelivered(p, r.ts, e);
    }
    KeepSame(rows, Reached(p, groups, key, e), InWindow(key, e - p.window, e));
  }

  /** The WHERE clause of the scan; value functions also drop rows without a value. */
  function Fetched(p: Plan, values: bool): Row -> bool {
    (r: Row) => p.start - p.window <= r.ts <= p.end && (values ==> r.unwrap.Some?)
  }

  function VarianceOfSums(squares: real, sum: real, n: real): real
    requires n > 0.0
  {
    squares / n - (sum / n) * (sum / n)
  }

  function SqlValue(call: Call, a: Agg): real
    requires call.window > 0 && a.count > 0
  {
    var mean := a.sum / a.count as real;
    var variance := VarianceOfSums(a.squares, a.sum, a.count as real);
    var floored := if variance < 0.0 then 0.0 else variance;
    match call.fn
    case CountOverTime => a.count as real
    case Rate => a.count as real / (call.window as real / 1000000000.0)
    case BytesOverTime => a.bytes as real
    case BytesRate => a.bytes as real / (call.window as real / 1000000000.0)
    case SumOverTime => a.sum
    case AvgOverTime => mean
    case MinOverTime => a.least
    case MaxOverTime => a.greatest
    case Stdvar => floored
    case Stddev => call.sqrt(floored)
  }

  lemma {:induction false} SummaryCounts(rows: seq<Row>)
    ensures Summary(rows).Some? <==> rows != []
    ensures rows != [] ==> Summary(rows).value.count == |rows|
  {
    if rows != [] {
      SummaryCounts(rows[..|rows| - 1]);
    }
  }

  lemma {:induction false} CollectedCount(p: Plan, rows: seq<Row>, groups: seq<Group>, key: string, e: int)
    requires p.step > 0
    requires forall i, j :: 0 <= i < j < |groups| ==> groups[i] != groups[j]
    ensures var a := Collect(Join(p, rows, groups), key, e); a.Some? ==> a.value.count > 0
  {
    CollectIsSummary(p, rows, groups, key, e);
    SummaryCounts(Keep(rows, Reached(p, groups, key, e)));
  }

  /** The value the plan answers for one series and evaluation point. */
  function Planned(p: Plan, call: Call, rows: seq<Row>, groups: seq<Group>, key: string, e: int): Option<real>
    requires p.step > 0 && call.window > 0
    requires forall i, j :: 0 <= i < j < |groups| ==> groups[i] != groups[j]
  {
    var a := Collect(Join(p, Keep(rows, Fetched(p, call.fn.ReadsValues())), groups), key, e);
    CollectedCount(p, Keep(rows, Fetched(p, call.fn.ReadsValues())), groups, key, e);
    if a.Some? then Some(SqlValue(call, a.value)) else None
  }

  // ---------------------------------------------------------------- direct evaluation

  function Bytes(rows: seq<Row>): nat {
    if rows == [] then 0 else Bytes(rows[..|rows| - 1]) + rows[|rows| - 1].bytes
  }

  function Values(rows: seq<Row>): seq<real> {
    if rows == [] then []
    else
      var n := |rows| - 1;
      Values(rows[..n]) + if rows[n].unwrap.Some? then [rows[n].unwrap.value] else []
  }

  function SumOf(values: seq<real>): real {
    if values == [] then 0.0 else SumOf(values[..|values| - 1]) + values[|values| - 1]
  }

  function Deviations(values: seq<real>, mean: real): real {
    if values == [] then 0.0
    else
      var d := values[|values| - 1] - mean;
      Deviations(values[..|values| - 1], mean) + d * d
  }

  function Extreme(values: seq<real>, greatest: bool): Option<real> {
    if values == [] then None
    else
      var (rest, v) := (Extreme(values[..|values| - 1], greatest), values[|values| - 1]);
      if rest.None? || (if greatest then v > rest.value else v < rest.value) then Some(v) else rest
  }

  /** What a range aggregation means on the rows of one window; None is the dropped NaN. */
  function Meaning(call: Call, rows: seq<Row>): Option<real>
    requires call.window > 0
  {
    var values := Values(rows);
    match call.fn
    case CountOverTime => Some(|rows| as real)
    case Rate => Some(|rows| as real / (call.window as real / 1000000000.0))
    case BytesOverTime => Some(Bytes(rows) as real)
    case BytesRate => Some(Bytes(rows) as real / (call.window as real / 1000000000.0))
    case SumOverTime => Some(SumOf(values))
    case AvgOverTime => if values == [] then None else Some(SumOf(values) / |values| as real)
    case MinOverTime => Extreme(values, false)
    case MaxOverTime => Extreme(values, true)
    case Stdvar => Variance(values)
    case Stddev => var v := Variance(values); if v.Some? then Some(call.sqrt(v.value)) else None
  }

  function Variance(values: seq<real>): Option<real> {
    if values == [] then None
    else Some(Deviations(values, SumOf(values) / |values| as real) / |values| as real)
  }

  /** Direct evaluation of one series at one point: a series without rows has no sample. */
  function Direct(p: Plan, call: Call, rows: seq<Row>, key: string, e: int): Option<real>
    requires call.window > 0
  {
    var window := Window(rows, key, e - p.window, e);
    if window == [] then None else Meaning(call, window)
  }

  method UnwrappedValues(rows: seq<Row>) returns (values: seq<real>)
    ensures values == Values(rows)
  {
    values := [];
    for i := 0 to |rows|
      invariant values == Values(rows[..i])
    {
      assert rows[..i + 1][..i] == rows[..i];
      if rows[i].unwrap.Some? {
        values := values + [rows[i].unwrap.value];
      }
    }
    assert rows[..|rows|] == rows;
  }

  method Total(values: seq<real>) returns (sum: real)
    ensures sum == SumOf(values)
  {
    sum := 0.0;
    for i := 0 to |values|
      invariant sum == SumOf(values[..i])
    {
      assert values[..i + 1][..i] == values[..i];
      sum := sum + values[i];
    }
    assert values[..|values|] == values;
  }

  method Spreading(values: seq<real>, mean: real) returns (variance: real)
    ensures variance == Deviations(values, mean)
  {
    variance := 0.0;
    for i := 0 to |values|
      invariant variance == Deviations(values[..i], mean)
    {
      assert values[..i + 1][..i] == values[..i];
      var delta := values[i] - mean;
      variance := variance + delta * delta;
    }
    assert values[..|values|] == values;
  }

  /** The running minimum or maximum; None is the infinity it starts from. */
  method Best(values: seq<real>, greatest: bool) returns (best: Option<real>)
    ensures best == Extreme(values, greatest)
  {
    best := None;
    for i := 0 to |values|
      invariant best == Extreme(values[..i], greatest)
    {
      assert values[..i + 1][..i] == values[..i];
      if best.None? || (if greatest then values[i] > best.value else values[i] < best.value) {
        best := Some(values[i]);
      }
    }
    assert values[..|values|] == values;
  }

  method TotalBytes(rows: seq<Row>) returns (total: nat)
    ensures total == Bytes(rows)
  {
    total := 0;
    for i := 0 to |rows|
      invariant total == Bytes(rows[..i])
    {
      assert rows[..i + 1][..i] == rows[..i];
      total := total + rows[i].bytes;
    }
    assert rows[..|rows|] == rows;
  }

  method RangeAggregationValue(call: Call, rows: seq<Row>) returns (r: Option<real>)
    requires call.window > 0
    ensures r == Meaning(call, rows)
  {
    match call.fn {
      case CountOverTime => return Some(|rows| as real);
      case Rate => return Some(|rows| as real / (call.window as real / 1000000000.0));
      case BytesOverTime =>
        var total := TotalBytes(rows);
        return Some(total as real);
      case BytesRate =>
        var total := TotalBytes(rows);
        return Some(total as real / (call.window as real / 1000000000.0));
      case _ =>
    }
    var values := UnwrappedValues(rows);
    if call.fn.MinOverTime? || call.fn.MaxOverTime? {
      r := Best(values, call.fn.MaxOverTime?);
      return;
    }
    var sum := Total(values);
    if call.fn.SumOverTime? {
      return Some(sum);
    }
    if values == [] {
      return None;
    }
    var mean := sum / |values| as real;
    if call.fn.AvgOverTime? {
      return Some(mean);
    }
    var variance := Spreading(values, mean);
    variance := variance / |values| as real;
    r := Some(if call.fn.Stddev? then call.sqrt(variance) else variance);
  }

  /** Rows of the window, grouped by their labels. */
  method GroupWindow(rows: seq<Row>, window: int, ts: int) returns (grouped: map<string, seq<Row>>)
    ensures forall key :: key in grouped <==> Window(rows, key, ts - window, ts) != []
    ensures forall key :: key in grouped ==> grouped[key] == Window(rows, key, ts - window, ts)
  {
    grouped := map[];
    for i := 0 to |rows|
      invariant forall key :: key in grouped <==> Window(rows[..i], key, ts - window, ts) != []
      invariant forall key :: key in grouped ==> grouped[key] == Window(rows[..i], key, ts - window, ts)
    {
      assert rows[..i + 1][..i] == rows[..i];
      var row := rows[i];
      ghost var was := grouped;
      if !(row.ts <= ts - window || row.ts > ts) {
        grouped := grouped[row.key := (if row.key in grouped then grouped[row.key] else []) + [row]];
      }
      forall key ensures key in grouped <==> Window(rows[..i + 1], key, ts - window, ts) != []
      ensures key in grouped ==> grouped[key] == Window(rows[..i + 1], key, ts - window, ts) {
        assert key in was <==> Window(rows[..i], key, ts - window, ts) != [];
      }
    }
    assert rows[..|rows|] == rows;
  }

  // ---------------------------------------------------------------- the plan is direct evaluation

  lemma OneDeviation(v: real, mean: real)
    ensures (v - mean) * (v - mean) == v * v - 2.0 * (mean * v) + mean * mean
    ensures (v - 0.0) * (v - 0.0) == v * v
  {
  }

  lemma Distribute(a: real, b: real, c: real)
    ensures a * (b + c) == a * b + a * c && (b + c) * a == b * a + c * a
  {
  }

  // Products are hidden in the induction, which only adds them up.
  function Product(a: real, b: real): real { a * b }

  lemma OneMoreDeviation(rest: seq<real>, v: real, mean: real)
    ensures Deviations(rest + [v], mean) ==
            Deviations(rest, mean) + Product(v, v) - 2.0 * Product(mean, v) + Product(mean, mean)
  {
    assert (rest + [v])[..|rest|] == rest;
    OneDeviation(v, mean);
  }

  lemma OneMoreSum(rest: seq<real>, v: real, mean: real)
    ensures Product(mean, SumOf(rest + [v])) == Product(mean, SumOf(rest)) + Product(mean, v)
  {
    assert (rest + [v])[..|rest|] == rest;
    Distribute(mean, SumOf(rest), v);
  }

  lemma OneMoreTimes(n: nat, x: real)
    ensures Product((n + 1) as real, x) == Product(n as real, x) + x
  {
    Distribute(x, n as real, 1.0);
  }

  lemma ProductOfZero(x: real)
    ensures Product(0.0, x) == 0.0 && Product(x, 0.0) == 0.0
  {
  }

  lemma {:induction false} DeviationsBySquares(values: seq<real>, mean: real)
    ensures Deviations(values, mean)
         == Deviations(values, 0.0) - 2.0 * Product(mean, SumOf(values)) + Product(|values| as real,
             Product(mean, mean))
  {
    if values == [] {
      hide Product;
      ProductOfZero(mean);
      ProductOfZero(Product(mean, mean));
    } else {
      hide Deviations, SumOf, Product;
      var (rest, v) := (values[..|values| - 1], values[|values| - 1]);
      assert values == rest + [v];
      DeviationsBySquares(rest, mean);
      OneMoreDeviation(rest, v, mean);
      OneMoreDeviation(rest, v, 0.0);
      ProductOfZero(v);
      ProductOfZero(0.0);
      OneMoreSum(rest, v, mean);
      OneMoreTimes(|rest|, Product(mean, mean));
    }
  }

  lemma SquaresOfDeviations(values: seq<real>, mean: real)
    ensures Deviations(values, mean)
         == Deviations(values, 0.0) - 2.0 * (mean * SumOf(values)) + |values| as real * (mean * mean)
  {
    hide Deviations, SumOf;
    DeviationsBySquares(values, mean);
  }

  lemma {:induction false} DeviationsAreNonNegative(values: seq<real>, mean: real)
    ensures Deviations(values, mean) >= 0.0
  {
    if values != [] {
      DeviationsAreNonNegative(values[..|values| - 1], mean);
      var d := values[|values| - 1] - mean;
      assert d * d >= 0.0;
    }
  }

  lemma Scaled(a: real, n: real)
    requires n > 0.0
    ensures n * a / n == a
    ensures a >= 0.0 ==> a / n >= 0.0
  {
  }

  lemma SplitQuotient(a: real, b: real, n: real)
    requires n > 0.0
    ensures (a - b) / n == a / n - b / n
  {
  }

  lemma MeanTimesSum(sum: real, n: real)
    requires n > 0.0
    ensures sum / n * sum == n * (sum / n * (sum / n))
  {
    var mean := sum / n;
    assert n * mean == sum;
    assert mean * (n * mean) == n * (mean * mean);
  }

  lemma DeviationsToVariance(spread: real, squares: real, sum: real, n: real)
    requires n > 0.0
    requires spread == squares - 2.0 * (sum / n * sum) + n * (sum / n * (sum / n))
    ensures spread / n == VarianceOfSums(squares, sum, n)
  {
    var m := sum / n * (sum / n);
    MeanTimesSum(sum, n);
    assert spread == squares - n * m;
    SplitQuotient(squares, n * m, n);
    Scaled(m, n);
  }

  /** The mean of squares less the square of the mean is the population variance, and it is
      never negative, so greatest(0, ...) changes nothing in exact arithmetic. */
  lemma VarianceFromSums(values: seq<real>)
    requires values != []
    ensures Variance(values) == Some(VarianceOfSums(Deviations(values, 0.0), SumOf(values), |values| as real))
    ensures Variance(values).value >= 0.0
  {
    hide Deviations, SumOf, VarianceOfSums;
    var n := |values| as real;
    var mean := SumOf(values) / n;
    SquaresOfDeviations(values, mean);
    DeviationsAreNonNegative(values, mean);
    DeviationsToVariance(Deviations(values, mean), Deviations(values, 0.0), SumOf(values), n);
    Scaled(Deviations(values, mean), n);
  }

  /** The bucket columns are the sums, counts and extremes of the rows. */
  lemma {:induction false} SummaryIs(rows: seq<Row>)
    requires rows != []
    ensures var a := Summary(rows); a.Some? && a.value.count == |rows| && a.value.bytes == Bytes(rows)
  {
    if |rows| > 1 {
      SummaryIs(rows[..|rows| - 1]);
    } else {
      assert rows[..0] == [];
    }
  }

  ghost predicate AllHaveValues(rows: seq<Row>) { forall i :: 0 <= i < |rows| ==> rows[i].unwrap.Some? }

  lemma ValuesGrow(rows: seq<Row>)
    requires rows != [] && AllHaveValues(rows)
    ensures var n := |rows| - 1;
            AllHaveValues(rows[..n]) && Values(rows) == Values(rows[..n]) + [rows[n].unwrap.value]
            && Values(rows)[..|Values(rows[..n])|] == Values(rows[..n])
  {
  }

  lemma {:induction false} SumsOfSummary(rows: seq<Row>)
    requires rows != [] && AllHaveValues(rows)
    ensures var (a, v) := (Summary(rows), Values(rows)); a.Some? && |v| == |rows| && a.value.sum == SumOf(v)
  {
    var n := |rows| - 1;
    ValuesGrow(rows);
    hide Values;
    if n > 0 {
      SumsOfSummary(rows[..n]);
    } else {
      NoRowsNoValues(rows[..0]);
    }
  }

  lemma NoRowsNoValues(rows: seq<Row>)
    requires rows == []
    ensures Values(rows) == [] && Summary(rows) == None
  {
  }

  lemma {:induction false} SquaresOfSummary(rows: seq<Row>)
    requires rows != [] && AllHaveValues(rows)
    ensures Summary(rows).Some? && Summary(rows).value.squares == Deviations(Values(rows), 0.0)
  {
    var n := |rows| - 1;
    ValuesGrow(rows);
    OneDeviation(rows[n].unwrap.value, 0.0);
    hide Values;
    if n > 0 {
      SquaresOfSummary(rows[..n]);
    } else {
      NoRowsNoValues(rows[..0]);
    }
  }

  lemma {:induction false} ExtremesOfSummary(rows: seq<Row>)
    requires rows != [] && AllHaveValues(rows)
    ensures var (a, v) := (Summary(rows), Values(rows));
            a.Some? && Extreme(v, false) == Some(a.value.least) && Extreme(v, true) == Some(a.value.greatest)
  {
    var n := |rows| - 1;
    ValuesGrow(rows);
    hide Values;
    if n > 0 {
      ExtremesOfSummary(rows[..n]);
    } else {
      NoRowsNoValues(rows[..0]);
    }
  }

  predicate HasValue(r: Row) { r.unwrap.Some? }

  lemma {:induction false} ValuesOfKept(rows: seq<Row>)
    ensures Values(Keep(rows, HasValue)) == Values(rows)
    ensures Keep(rows, HasValue) == [] <==> Values(rows) == []
  {
    if rows != [] {
      var n := |rows| - 1;
      ValuesOfKept(rows[..n]);
      var kept := Keep(rows[..n], HasValue);
      if HasValue(rows[n]) {
        assert (kept + [rows[n]])[..|kept|] == kept;
      } else {
        assert kept + [] == kept && Values(rows[..n]) + [] == Values(rows[..n]);
      }
    }
  }

  /** The SQL expression over the merged columns is the aggregation over the rows. */
  lemma SqlValueIsMeaning(call: Call, rows: seq<Row>)
    requires call.Valid() && rows != [] && (call.fn.ReadsValues() ==> forall r :: r in rows ==> r.unwrap.Some?)
    ensures var a := Summary(rows);
            a.Some? && a.value.count > 0 && Some(SqlValue(call, a.value)) == Meaning(call, rows)
  {
    hide Summary, Bytes, Values, SumOf, Deviations, Extreme, Variance, VarianceOfSums;
    SummaryIs(rows);
    if call.fn.ReadsValues() {
      SumsOfSummary(rows);
      SquaresOfSummary(rows);
      ExtremesOfSummary(rows);
      VarianceFromSums(Values(rows));
    }
  }

  /** Rows outside the fetched range are in no window. */
  lemma FetchKeepsWindow(p: Plan, values: bool, rows: seq<Row>, key: string, e: int)
    requires p.Valid() && OnGrid(p, e)
    ensures Window(Keep(rows, Fetched(p, values)), key, e - p.window, e)
         == if values then Keep(Window(rows, key, e - p.window, e), HasValue)
            else Window(rows, key, e - p.window, e)
  {
    var within := InWindow(key, e - p.window, e);
    KeepTwice(rows, Fetched(p, values), within);
    if values {
      KeepTwice(rows, within, HasValue);
      KeepSame(rows, Both(Fetched(p, values), within), Both(within, HasValue));
    } else {
      KeepSame(rows, Both(Fetched(p, values), within), within);
    }
  }

  /** The one case in which the plans differ: sum_over_time of a window with rows but without
      a single unwrapped value is 0 when evaluated directly and absent from the SQL result. */
  predicate SumOfNothing(p: Plan, call: Call, rows: seq<Row>, key: string, e: int) {
    var window := Window(rows, key, e - p.window, e);
    call.fn.SumOverTime? && window != [] && Values(window) == []
  }

  /** Main result: for every series and evaluation point the bucket plan answers what direct
      evaluation of the window answers, exactly unless sum_over_time sums nothing. */
  lemma PlanIsDirectIff(p: Plan, call: Call, rows: seq<Row>, groups: seq<Group>, key: string, e: int)
    requires p.Valid() && p.Aligned() && call.window == p.window && OnGrid(p, e)
    requires forall r :: r in rows ==> Roundable(r.ts, p.step)
    requires IsScan(Keep(rows, Fetched(p, call.fn.ReadsValues())), p.step, groups)
    ensures Planned(p, call, rows, groups, key, e) == Direct(p, call, rows, key, e)
       <==> !SumOfNothing(p, call, rows, key, e)
  {
    hide Summary, Collect, Join, Window, Values, Meaning, SqlValue, Roundable;
    var scanned := Keep(rows, Fetched(p, call.fn.ReadsValues()));
    forall r | r in scanned ensures Roundable(r.ts, p.step) {
      KeptRows(rows, Fetched(p, call.fn.ReadsValues()), r);
    }
    CollectIsWindow(p, scanned, groups, key, e);
    FetchKeepsWindow(p, call.fn.ReadsValues(), rows, key, e);
    var window := Window(rows, key, e - p.window, e);
    var seen := Window(scanned, key, e - p.window, e);
    WindowValues(call, window, seen);
  }

  /** It does happen: one row without a value at the only evaluation point. */
  lemma SumOfNothingExample(sqrt: real -> real)
    ensures var p, call := Plan(2, 2, 1, 1), Call(SumOverTime, 1, sqrt);
      var rows := [Row("a", 2, 5, None)];
      SumOfNothing(p, call, rows, "a", 2)
      && Direct(p, call, rows, "a", 2) == Some(0.0) && Planned(p, call, rows, [], "a", 2) == None
  {
    var p, call := Plan(2, 2, 1, 1), Call(SumOverTime, 1, sqrt);
    var rows := [Row("a", 2, 5, None)];
    assert rows[..0] == [];
    assert Window(rows, "a", 1, 2) == rows;
    assert Keep(rows, Fetched(p, true)) == [];
  }

  lemma WindowValues(call: Call, window: seq<Row>, seen: seq<Row>)
    requires call.Valid() && seen == if call.fn.ReadsValues() then Keep(window, HasValue) else window
    ensures var a := Summary(seen);
            (a.Some? ==> a.value.count > 0)
            && ((if a.Some? then Some(SqlValue(call, a.value)) else None)
                == (if window == [] then None else Meaning(call, window))
                <==> !(call.fn.SumOverTime? && window != [] && Values(window) == []))
  {
    SummaryCounts(seen);
    ValuesOfKept(window);
    if seen != [] {
      if call.fn.ReadsValues() {
        forall r | r in seen ensures r.unwrap.Some? { KeptRows(window, HasValue, r); }
      }
      SqlValueIsMeaning(call, seen);
      MeaningReads(call, window, seen);
    } else if window != [] {
      assert call.fn.ReadsValues();
      assert Values(window) == [];
    }
  }

  lemma MeaningReads(call: Call, window: seq<Row>, seen: seq<Row>)
    requires call.Valid() && (if call.fn.ReadsValues() then Values(seen) == Values(window) else seen == window)
    ensures Meaning(call, seen) == Meaning(call, window)
  {
  }

  // ---------------------------------------------------------------- alignment


  function CeilTo(t: int, step: int): int
    requires step > 0
  {
    CeilDiv(t, step) * step
  }

  lemma CeilToRoundsUp(t: int, step: int, b: int)
    requires step > 0
    ensures RoundsUp(t, step, b) <==> b == CeilTo(t, step)
  {
    hide CeilDiv;
    var q := CeilDiv(t, step);
    Multiple(q, step);
    CeilDivBounds(t, step, q);
    CeilDivBounds(t, step, q - 1);
    assert (q - 1) * step == q * step - step;
    if RoundsUp(t, step, b) {
      QuotientIs(b, b / step, step);
      Compare(b / step, q, step);
      Compare(q, b / step, step);
    }
  }

  predicate FitsRoundedUp(t: int, step: int)
    requires step > 0
  {
    MIN_INT64 <= t <= MAX_INT64 && CeilTo(t, step) <= MAX_INT64
  }

  /** Rounding a time up in int64 nanoseconds: the least multiple of step at or after it, or an
      error exactly when the time or that multiple does not fit. */
  method CeilUnixNano(t: int, step: int) returns (r: Option<int>)
    requires 0 < step <= MAX_INT64
    ensures r == if FitsRoundedUp(t, step) then Some(CeilTo(t, step)) else None
  {
    if !(MIN_INT64 <= t <= MAX_INT64) {
      return None;
    }
    var value, rem := t, TruncRemainder(t, step);
    RemainderRounds(t, step);
    CeilToRoundsUp(t, step, if rem > 0 then t + step - rem else t - rem);
    if rem > 0 {
      if value > MAX_INT64 - (step - rem) {
        return None;
      }
      value := value + (step - rem);
    } else {
      value := value - rem;
    }
    r := Some(value);
  }

  lemma RemainderRounds(t: int, step: int)
    requires step > 0
    ensures var rem := TruncRemainder(t, step);
            -step < rem < step && RoundsUp(t, step, if rem > 0 then t + step - rem else t - rem)
  {
    var q := TruncDiv(t, step);
    Multiple(q, step);
    Multiple(q + 1, step);
    assert (q + 1) * step == q * step + step;
    if t >= 0 {
      assert t == (t / step) * step + t % step;
    } else {
      assert -t == (-t / step) * step + -t % step;
    }
  }

  /** The range a query is evaluated over: both ends rounded up to the step, one minute when
      none is given. Its start is aligned, as the fan-out needs. */
  method AlignRange(start: int, end: int, step: int) returns (r: Option<(int, int)>)
    requires step <= MAX_INT64
    ensures var s := if step <= 0 then 60_000_000_000 else step;
            r == (if FitsRoundedUp(start, s) && FitsRoundedUp(end, s)
                  then Some((CeilTo(start, s), CeilTo(end, s))) else None)
            && (r.Some? ==> r.value.0 % s == 0 && r.value.1 % s == 0)
  {
    var s := if step <= 0 then 60_000_000_000 else step;
    CeilToRoundsUp(start, s, CeilTo(start, s));
    CeilToRoundsUp(end, s, CeilTo(end, s));
    var alignedStart := CeilUnixNano(start, s);
    if alignedStart.None? {
      return None;
    }
    var alignedEnd := CeilUnixNano(end, s);
    if alignedEnd.None? {
      return None;
    }
    r := Some((alignedStart.value, alignedEnd.value));
  }
}
