/** Samples of one series, in time order, and the left-open windows every rollup reads.
    Times are milliseconds; values are exact reals. */
module Samples {

  import opened Options

  datatype Point = Point(t: int, v: real)

  /** Adding values that may be absent. */
  function Plus(a: Option<real>, b: Option<real>): Option<real> {
    match (a, b)
    case (None, _) => b
    case (_, None) => a
    case (Some(x), Some(y)) => Some(x + y)
  }

  ghost predicate Sorted(points: seq<Point>) {
    forall i, j :: 0 <= i < j < |points| ==> points[i].t <= points[j].t
  }

  ghost predicate Increasing(points: seq<Point>) {
    forall i, j :: 0 <= i < j < |points| ==> points[i].t < points[j].t
  }

  function Min(a: int, b: int): (r: int)
    ensures r <= a && r <= b && (r == a || r == b)
  {
    if a <= b then a else b
  }

  function Max(a: int, b: int): (r: int)
    ensures r >= a && r >= b && (r == a || r == b)
  {
    if a >= b then a else b
  }

  function Abs(x: real): (r: real)
    ensures r >= 0.0 && (r == x || r == -x)
  {
    if x < 0.0 then -x else x
  }

  /** The index sort.Search finds for `T > bound`. */
  function FirstAfter(points: seq<Point>, bound: int): (r: nat)
    ensures r <= |points|
  {
    if |points| == 0 || points[0].t > bound then 0 else 1 + FirstAfter(points[1..], bound)
  }

  /** Everything before the index is at or before the bound; from it on, everything is after. */
  lemma {:induction false} FirstAfterSplits(points: seq<Point>, bound: int)
    ensures var r := FirstAfter(points, bound);
      (forall i :: 0 <= i < r ==> points[i].t <= bound)
      && (r < |points| ==> points[r].t > bound)
      && (Sorted(points) ==> forall i :: r <= i < |points| ==> points[i].t > bound)
  {
    if |points| != 0 && points[0].t <= bound {
      FirstAfterSplits(points[1..], bound);
    }
  }

  /** On sorted points it is the only such index. */
  lemma FirstAfterIsUnique(points: seq<Point>, bound: int, k: nat)
    requires Sorted(points) && k <= |points|
    requires forall i :: 0 <= i < k ==> points[i].t <= bound
    requires k < |points| ==> points[k].t > bound
    ensures FirstAfter(points, bound) == k
  {
    FirstAfterSplits(points, bound);
  }

  lemma FirstAfterIsMonotone(points: seq<Point>, lo: int, hi: int)
    requires lo <= hi
    ensures FirstAfter(points, lo) <= FirstAfter(points, hi)
  {
    FirstAfterSplits(points, lo);
    FirstAfterSplits(points, hi);
  }

  /** The points in the left-open window (lo, hi]. */
  function LeftOpen(points: seq<Point>, lo: int, hi: int): (r: seq<Point>)
    requires lo <= hi
  {
    FirstAfterIsMonotone(points, lo, hi);
    points[FirstAfter(points, lo)..FirstAfter(points, hi)]
  }

  /** Membership in the window is exactly the time condition. */
  lemma LeftOpenMembers(points: seq<Point>, lo: int, hi: int, i: nat)
    requires Sorted(points) && lo <= hi && i < |points|
    ensures lo < points[i].t <= hi <==> FirstAfter(points, lo) <= i < FirstAfter(points, hi)
  {
    FirstAfterSplits(points, lo);
    FirstAfterSplits(points, hi);
  }

  /** Searching inside a sub-range of the points is searching the points. */
  lemma FirstAfterInSlice(points: seq<Point>, m: nat, n: nat, bound: int)
    requires Sorted(points) && m <= n <= |points|
    ensures FirstAfter(points[m..n], bound) ==
            Max(0, Min(FirstAfter(points, bound), n) - m)
  {
    var k := Max(0, Min(FirstAfter(points, bound), n) - m);
    FirstAfterSplits(points, bound);
    FirstAfterIsUnique(points[m..n], bound, k);
  }
}
