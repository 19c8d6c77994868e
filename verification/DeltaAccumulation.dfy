/** Delta histogram points turned into a running total in place, what counter functions read
    back from that total, and the merge of two sample lists that prefers the first. */
module DeltaAccumulation {
  import opened Options
  import opened Samples
  import Counter

  /** A stored value: finite, the stale marker, or a NaN or infinity told apart by a number. */
  datatype Value = Finite(v: real) | Stale | Odd(kind: int)
  datatype Sample = Sample(t: int, value: Value)

  ghost predicate InOrder(s: seq<Sample>) {
    forall i, j :: 0 <= i < j < |s| ==> s[i].t <= s[j].t
  }

  ghost predicate StrictlyInOrder(s: seq<Sample>) {
    forall i, j :: 0 <= i < j < |s| ==> s[i].t < s[j].t
  }

  // ---------------------------------------------------------------- sorting by time

  lemma InsertedInOrder(s: seq<Sample>, x: Sample, i: nat)
    requires InOrder(s) && i <= |s| && (i > 0 ==> s[i - 1].t <= x.t)
    requires forall k :: i <= k < |s| ==> s[k].t > x.t
    ensures InOrder(s[..i] + [x] + s[i..])
  {
    var r := s[..i] + [x] + s[i..];
    forall k, l | 0 <= k < l < |r| ensures r[k].t <= r[l].t {
      assert r[k] == (if k < i then s[k] else if k == i then x else s[k - 1]);
      assert r[l] == (if l < i then s[l] else if l == i then x else s[l - 1]);
      if k < i {
        assert s[k].t <= s[i - 1].t;
      }
    }
  }

  lemma InsertedIsMore(s: seq<Sample>, x: Sample, i: nat)
    requires i <= |s|
    ensures multiset(s[..i] + [x] + s[i..]) == multiset(s) + multiset{x}
  {
    assert s == s[..i] + s[i..];
  }

  /** One insertion, after every sample that is not later. */
  method InsertByTime(s: seq<Sample>, x: Sample) returns (r: seq<Sample>)
    requires InOrder(s)
    ensures InOrder(r) && multiset(r) == multiset(s) + multiset{x}
  {
    var i := |s|;
    while i > 0 && s[i - 1].t > x.t
      invariant 0 <= i <= |s| && forall k :: i <= k < |s| ==> s[k].t > x.t
    {
      i := i - 1;
    }
    InsertedInOrder(s, x, i);
    InsertedIsMore(s, x, i);
    hide InOrder;
    r := s[..i] + [x] + s[i..];
  }

  /** sortSamples. The order of samples with equal times is not promised. */
  method SortSamples(s: seq<Sample>) returns (r: seq<Sample>)
    ensures InOrder(r) && multiset(r) == multiset(s)
  {
    r := [];
    for i := 0 to |s|
      invariant InOrder(r) && multiset(r) == multiset(s[..i])
    {
      assert s[..i + 1] == s[..i] + [s[i]];
      r := InsertByTime(r, s[i]);
    }
    assert s[..|s|] == s;
  }

  // ---------------------------------------------------------------- the loop

  /** The end of the run of samples that share the time of sample i. */
  function RunEnd(s: seq<Sample>, i: nat, j: nat): (r: nat)
    requires i < j <= |s|
    ensures j <= r <= |s| && (r < |s| ==> s[r].t != s[i].t)
    ensures forall k :: j <= k < r ==> s[k].t == s[i].t
    decreases |s| - j
  {
    if j < |s| && s[j].t == s[i].t then RunEnd(s, i, j + 1) else j
  }

  function RunSum(s: seq<Sample>, i: nat, j: nat): real
    requires i <= j <= |s|
  {
    if i == j then 0.0 else RunSum(s, i, j - 1) + if s[j - 1].value.Finite? then s[j - 1].value.v else 0.0
  }

  predicate RunIsFinite(s: seq<Sample>, i: nat, j: nat)
    requires i <= j <= |s|
  {
    exists k :: i <= k < j && s[k].value.Finite?
  }

  /** What a run without finite points shows: its last NaN or infinity, or else a stale marker. */
  function RunOdd(s: seq<Sample>, i: nat, j: nat): Value
    requires i <= j <= |s|
  {
    if i == j then Stale else if s[j - 1].value.Odd? then s[j - 1].value else RunOdd(s, i, j - 1)
  }

  function Accumulated(s: seq<Sample>, i: nat, total: real): (r: seq<Sample>)
    requires i <= |s|
    decreases |s| - i
  {
    if i == |s| then []
    else
      var j := RunEnd(s, i, i + 1);
      var next := total + RunSum(s, i, j);
      [Sample(s[i].t, if RunIsFinite(s, i, j) then Finite(next) else RunOdd(s, i, j))]
      + Accumulated(s, j, if RunIsFinite(s, i, j) then next else total)
  }

  /** The inner loop: one run of samples with the same time. */
  method ReadRun(a: array<Sample>, first: nat, ghost s: seq<Sample>)
    returns (index: nat, sum: real, finite: bool, value: Value)
    requires first < a.Length == |s| && a[first..] == s[first..]
    ensures first < index <= a.Length && index == RunEnd(s, first, first + 1)
    ensures sum == RunSum(s, first, index) && finite == RunIsFinite(s, first, index)
    ensures value == RunOdd(s, first, index)
  {
    forall k | first <= k < |s| ensures a[k] == s[k] { assert a[first..][k - first] == s[first..][k - first]; }
    var timestamp := a[first].t;
    index, sum, finite, value := first, 0.0, false, Stale;
    while index < a.Length && a[index].t == timestamp
      invariant first <= index <= a.Length
      invariant forall k :: first <= k < index ==> s[k].t == timestamp
      invariant sum == RunSum(s, first, index) && finite == RunIsFinite(s, first, index)
      invariant value == RunOdd(s, first, index)
    {
      match a[index].value {
        case Stale =>
        case Odd(_) => value := a[index].value;
        case Finite(v) =>
          sum := sum + v;
          finite := true;
      }
      index := index + 1;
    }
    RunEndIs(s, first, index);
  }

  /** Reading and writing the same array: the write position never passes the read position, so
      no sample is overwritten before it is read. */
  method Accumulate(a: array<Sample>) returns (count: nat)
    modifies a
    ensures count <= a.Length && a[..count] == Accumulated(old(a[..]), 0, 0.0)
  {
    hide Accumulated, RunEnd, RunSum, RunIsFinite, RunOdd;
    ghost var s := a[..];
    var total, index := 0.0, 0;
    count := 0;
    assert a[..0] + Accumulated(s, 0, 0.0) == Accumulated(s, 0, 0.0);
    while index < a.Length
      invariant count <= index <= a.Length
      invariant a[index..] == s[index..]
      invariant a[..count] + Accumulated(s, index, total) == Accumulated(s, 0, 0.0)
    {
      var timestamp := a[index].t;
      assert timestamp == s[index].t by { assert a[index..][0] == s[index..][0]; }
      var next, sum, finite, value := ReadRun(a, index, s);
      AccumulatedStep(s, index, total);
      if finite {
        total := total + sum;
        value := Finite(total);
      }
      ghost var before := a[..count];
      assert a[next..] == a[index..][next - index..] && s[next..] == s[index..][next - index..];
      a[count] := Sample(timestamp, value);
      assert a[..count + 1] == before + [Sample(timestamp, value)];
      index, count := next, count + 1;
    }
    AccumulatedEnd(s, total);
    assert a[..count] + [] == a[..count];
  }

  lemma AccumulatedEnd(s: seq<Sample>, total: real)
    ensures Accumulated(s, |s|, total) == []
  {
  }

  lemma RunEndIs(s: seq<Sample>, i: nat, j: nat)
    requires i < j <= |s| && (forall k :: i <= k < j ==> s[k].t == s[i].t) && (j < |s| ==> s[j].t != s[i].t)
    ensures RunEnd(s, i, i + 1) == j
  {
  }

  lemma AccumulatedStep(s: seq<Sample>, i: nat, total: real)
    requires i < |s|
    ensures var j := RunEnd(s, i, i + 1);
            var next := total + RunSum(s, i, j);
            Accumulated(s, i, total)
            == [Sample(s[i].t, if RunIsFinite(s, i, j) then Finite(next) else RunOdd(s, i, j))]
               + Accumulated(s, j, if RunIsFinite(s, i, j) then next else total)
  {
  }

  // ---------------------------------------------------------------- what the output means

  /** What one input adds to the total at time t. */
  function Share(x: Sample, t: int): real { if x.t <= t && x.value.Finite? then x.value.v else 0.0 }

  /** Sum of the finite inputs up to and including time t. */
  function TotalUpTo(s: seq<Sample>, t: int): real {
    if s == [] then 0.0
    else
      var x := s[|s| - 1];
      TotalUpTo(s[..|s| - 1], t) + Share(x, t)
  }

  /** The last NaN or infinity at time t, or a stale marker. */
  function LastOddAt(s: seq<Sample>, t: int): Value {
    if s == [] then Stale
    else
      var x := s[|s| - 1];
      if x.t == t && x.value.Odd? then x.value else LastOddAt(s[..|s| - 1], t)
  }

  predicate FiniteAt(s: seq<Sample>, t: int) {
    exists k :: 0 <= k < |s| && s[k].t == t && s[k].value.Finite?
  }

  function Expected(s: seq<Sample>, t: int): Value {
    if FiniteAt(s, t) then Finite(TotalUpTo(s, t)) else LastOddAt(s, t)
  }

  predicate HasTime(s: seq<Sample>, t: int) { exists k :: 0 <= k < |s| && s[k].t == t }

  lemma {:induction false} TotalOfPrefix(s: seq<Sample>, t: int, j: nat)
    requires j <= |s| && (forall k :: 0 <= k < j ==> s[k].t <= t) && (forall k :: j <= k < |s| ==> s[k].t > t)
    ensures TotalUpTo(s, t) == RunSum(s, 0, j)
    decreases |s|
  {
    if s != [] {
      var n := |s| - 1;
      if j == |s| {
        TotalOfPrefix(s[..n], t, n);
        RunSumOfPrefix(s, n, 0, n);
      } else {
        TotalOfPrefix(s[..n], t, j);
        RunSumOfPrefix(s, n, 0, j);
      }
    }
  }

  lemma {:induction false} RunSumOfPrefix(s: seq<Sample>, n: nat, i: nat, j: nat)
    requires i <= j <= n <= |s|
    ensures RunSum(s[..n], i, j) == RunSum(s, i, j)
    decreases j
  {
    if i < j {
      RunSumOfPrefix(s, n, i, j - 1);
    }
  }

  lemma {:induction false} RunSumSplits(s: seq<Sample>, i: nat, m: nat, j: nat)
    requires i <= m <= j <= |s|
    ensures RunSum(s, i, j) == RunSum(s, i, m) + RunSum(s, m, j)
    decreases j
  {
    if m < j {
      RunSumSplits(s, i, m, j - 1);
    }
  }

  lemma {:induction false} RunWithoutFinite(s: seq<Sample>, i: nat, j: nat)
    requires i <= j <= |s| && !RunIsFinite(s, i, j)
    ensures RunSum(s, i, j) == 0.0
    decreases j
  {
    if i < j {
      RunWithoutFinite(s, i, j - 1);
    }
  }

  lemma {:induction false} OddOfRun(s: seq<Sample>, t: int, i: nat, j: nat)
    requires i <= j <= |s|
    requires forall k :: 0 <= k < |s| ==> (s[k].t == t <==> i <= k < j)
    ensures LastOddAt(s, t) == RunOdd(s, i, j)
    decreases |s|
  {
    if s != [] {
      var n := |s| - 1;
      if j == |s| && i < j {
        OddOfRun(s[..n], t, i, n);
        RunOddOfPrefix(s, n, i, n);
      } else if j == |s| {
        OddOfRun(s[..n], t, n, n);
      } else {
        OddOfRun(s[..n], t, i, j);
        RunOddOfPrefix(s, n, i, j);
      }
    }
  }

  lemma {:induction false} RunOddOfPrefix(s: seq<Sample>, n: nat, i: nat, j: nat)
    requires i <= j <= n <= |s|
    ensures RunOdd(s[..n], i, j) == RunOdd(s, i, j)
    decreases j
  {
    if i < j {
      RunOddOfPrefix(s, n, i, j - 1);
    }
  }

  /** Between two different times. */
  ghost predicate Boundary(s: seq<Sample>, i: nat) {
    i <= |s| && (0 < i < |s| ==> s[i - 1].t < s[i].t)
  }

  /** One run of time-ordered input is exactly the samples of its time. */
  lemma RunIsTime(s: seq<Sample>, i: nat)
    requires InOrder(s) && i < |s| && Boundary(s, i)
    ensures var j := RunEnd(s, i, i + 1);
            Boundary(s, j) && (forall k :: 0 <= k < |s| ==> (s[k].t == s[i].t <==> i <= k < j))
            && (forall k :: 0 <= k < j ==> s[k].t <= s[i].t) && (forall k :: j <= k < |s| ==> s[k].t > s[i].t)
  {
  }

  lemma RunMeans(s: seq<Sample>, i: nat)
    requires InOrder(s) && i < |s| && Boundary(s, i)
    ensures var j := RunEnd(s, i, i + 1);
            (RunIsFinite(s, i, j) <==> FiniteAt(s, s[i].t))
            && TotalUpTo(s, s[i].t) == RunSum(s, 0, i) + RunSum(s, i, j)
            && LastOddAt(s, s[i].t) == RunOdd(s, i, j)
            && RunSum(s, 0, j) == RunSum(s, 0, i) + RunSum(s, i, j)
            && (!RunIsFinite(s, i, j) ==> RunSum(s, i, j) == 0.0)
  {
    hide RunEnd;
    var j := RunEnd(s, i, i + 1);
    RunIsTime(s, i);
    TotalOfPrefix(s, s[i].t, j);
    RunSumSplits(s, 0, i, j);
    OddOfRun(s, s[i].t, i, j);
    if !RunIsFinite(s, i, j) {
      RunWithoutFinite(s, i, j);
    }
  }

  /** A run's sample in front of what the rest of the input gives. */
  lemma OneMoreTime(s: seq<Sample>, i: nat, j: nat, first: Sample, rest: seq<Sample>)
    requires i < j <= |s| && first == Sample(s[i].t, Expected(s, s[i].t))
    requires (forall k :: i <= k < j ==> s[k].t == s[i].t) && (forall k :: j <= k < |s| ==> s[k].t > s[i].t)
    requires forall k :: 0 <= k < |rest| ==> rest[k].value == Expected(s, rest[k].t)
    requires forall k, l :: 0 <= k < l < |rest| ==> rest[k].t < rest[l].t
    requires forall k :: 0 <= k < |rest| ==> j < |s| && rest[k].t >= s[j].t && HasTime(s, rest[k].t)
    requires forall k :: j <= k < |s| ==> HasTime(rest, s[k].t)
    ensures var r := [first] + rest;
            (forall k :: 0 <= k < |r| ==> r[k].value == Expected(s, r[k].t))
            && (forall k, l :: 0 <= k < l < |r| ==> r[k].t < r[l].t)
            && (forall k :: 0 <= k < |r| ==> r[k].t >= s[i].t && HasTime(s, r[k].t))
            && (forall k :: i <= k < |s| ==> HasTime(r, s[k].t))
  {
    hide Expected;
    var r := [first] + rest;
    assert r[0] == first && HasTime(s, s[i].t);
    forall k | i <= k < |s| ensures HasTime(r, s[k].t) {
      if k >= j {
        var l :| 0 <= l < |rest| && rest[l].t == s[k].t;
        assert r[l + 1].t == s[k].t;
      }
    }
  }

  /** The output has each time of the input once, in strictly increasing order, and every value
      is what the input means at that time. */
  lemma {:induction false} AccumulatedMeans(s: seq<Sample>, i: nat, total: real)
    requires InOrder(s) && Boundary(s, i) && total == RunSum(s, 0, i)
    ensures var r := Accumulated(s, i, total);
            (forall k :: 0 <= k < |r| ==> r[k].value == Expected(s, r[k].t))
            && (forall k, l :: 0 <= k < l < |r| ==> r[k].t < r[l].t)
            && (forall k :: 0 <= k < |r| ==> i < |s| && r[k].t >= s[i].t && HasTime(s, r[k].t))
            && (forall k :: i <= k < |s| ==> HasTime(r, s[k].t))
    decreases |s| - i
  {
    hide RunEnd, RunSum, RunIsFinite, RunOdd, TotalUpTo, LastOddAt, FiniteAt, HasTime, Boundary;
    if i < |s| {
      var j := RunEnd(s, i, i + 1);
      RunIsTime(s, i);
      RunMeans(s, i);
      var next := if RunIsFinite(s, i, j) then total + RunSum(s, i, j) else total;
      AccumulatedMeans(s, j, next);
      OneMoreTime(s, i, j, Sample(s[i].t, Expected(s, s[i].t)), Accumulated(s, j, next));
    }
  }

  /** Main result on accumulation, for the whole of a time-ordered input. */
  lemma AccumulationIsRunningTotal(s: seq<Sample>)
    requires InOrder(s)
    ensures var r := Accumulated(s, 0, 0.0);
            (forall k, l :: 0 <= k < l < |r| ==> r[k].t < r[l].t)
            && (forall t :: HasTime(r, t) <==> HasTime(s, t))
            && (forall k :: 0 <= k < |r| ==>
                  r[k].value == if FiniteAt(s, r[k].t) then Finite(TotalUpTo(s, r[k].t)) else LastOddAt(s, r[k].t))
  {
    AccumulatedMeans(s, 0, 0.0);
    var r := Accumulated(s, 0, 0.0);
    forall t ensures HasTime(r, t) <==> HasTime(s, t) {
      if k :| 0 <= k < |r| && r[k].t == t {
        assert HasTime(s, r[k].t);
      }
      if k :| 0 <= k < |s| && s[k].t == t {
        assert HasTime(r, s[k].t);
      }
    }
  }

  // ---------------------------------------------------------------- finishing a series

  lemma {:induction false} TotalOfBoth(a: seq<Sample>, b: seq<Sample>, t: int)
    ensures TotalUpTo(a + b, t) == TotalUpTo(a, t) + TotalUpTo(b, t)
  {
    if b == [] {
      assert a + b == a;
    } else {
      TotalOfBoth(a, b[..|b| - 1], t);
      assert (a + b)[..|a + b| - 1] == a + b[..|b| - 1];
    }
  }

  /** The running total does not depend on the order of the samples. */
  lemma {:induction false} TotalIsOrderless(a: seq<Sample>, b: seq<Sample>, t: int)
    requires multiset(a) == multiset(b)
    ensures TotalUpTo(a, t) == TotalUpTo(b, t)
    decreases |a|
  {
    assert |a| == |multiset(a)| && |b| == |multiset(b)|;
    if a != [] {
      hide TotalUpTo;
      var n := |a| - 1;
      var x := a[n];
      assert a == a[..n] + [x];
      assert x in multiset(b);
      var k :| 0 <= k < |b| && b[k] == x;
      assert b == b[..k] + [x] + b[k + 1..];
      assert multiset(a[..n]) == multiset(a) - multiset{x};
      assert multiset(b[..k] + b[k + 1..]) == multiset(b) - multiset{x};
      TotalIsOrderless(a[..n], b[..k] + b[k + 1..], t);
      TotalOfBoth(a[..n], [x], t);
      TotalOfBoth(b[..k] + [x], b[k + 1..], t);
      TotalOfBoth(b[..k], [x], t);
      TotalOfBoth(b[..k], b[k + 1..], t);
    }
  }

  lemma SameMembers(a: seq<Sample>, b: seq<Sample>)
    requires multiset(a) == multiset(b)
    ensures forall x :: x in a <==> x in b
    ensures forall t :: (HasTime(a, t) <==> HasTime(b, t)) && (FiniteAt(a, t) <==> FiniteAt(b, t))
  {
    forall x ensures x in a <==> x in b { assert x in multiset(a) <==> x in multiset(b); }
    forall t ensures (HasTime(a, t) ==> HasTime(b, t)) && (FiniteAt(a, t) ==> FiniteAt(b, t)) {
      MembersReach(a, b, t);
    }
    forall t ensures (HasTime(b, t) ==> HasTime(a, t)) && (FiniteAt(b, t) ==> FiniteAt(a, t)) {
      MembersReach(b, a, t);
    }
  }

  lemma MembersReach(a: seq<Sample>, b: seq<Sample>, t: int)
    requires forall x :: x in a ==> x in b
    ensures (HasTime(a, t) ==> HasTime(b, t)) && (FiniteAt(a, t) ==> FiniteAt(b, t))
  {
    if k :| 0 <= k < |a| && a[k].t == t {
      assert a[k] in b;
    }
    if k :| 0 <= k < |a| && a[k].t == t && a[k].value.Finite? {
      assert a[k] in b;
    }
  }

  lemma {:induction false} OddIsInput(s: seq<Sample>, t: int)
    ensures var v := LastOddAt(s, t); v == Stale || (v.Odd? && Sample(t, v) in s)
  {
    if s != [] {
      OddIsInput(s[..|s| - 1], t);
      assert s == s[..|s| - 1] + [s[|s| - 1]];
    }
  }

  /** What a finished delta series shows, whatever order its points were added in: one sample
      per time, in order, with the total of all finite points so far; where no point is finite,
      a NaN or infinity of that time or a stale marker. */
  ghost predicate RunningTotal(s: seq<Sample>, r: seq<Sample>) {
    StrictlyInOrder(r) && (forall t :: HasTime(r, t) <==> HasTime(s, t))
    && forall k :: 0 <= k < |r| ==>
         if FiniteAt(s, r[k].t) then r[k].value == Finite(TotalUpTo(s, r[k].t))
         else r[k].value == Stale || (r[k].value.Odd? && r[k] in s)
  }

  lemma SortedTotal(s: seq<Sample>, sorted: seq<Sample>)
    requires InOrder(sorted) && multiset(sorted) == multiset(s)
    ensures RunningTotal(s, Accumulated(sorted, 0, 0.0))
  {
    hide Accumulated, TotalUpTo, FiniteAt, HasTime, LastOddAt;
    var r := Accumulated(sorted, 0, 0.0);
    AccumulationIsRunningTotal(sorted);
    SameMembers(sorted, s);
    forall k | 0 <= k < |r|
      ensures if FiniteAt(s, r[k].t) then r[k].value == Finite(TotalUpTo(s, r[k].t))
              else r[k].value == Stale || (r[k].value.Odd? && r[k] in s)
    {
      TotalIsOrderless(sorted, s, r[k].t);
      OddIsInput(sorted, r[k].t);
    }
  }

  /** One round of finish: a series is sorted by time, and a delta series accumulated. */
  method FinishSamples(samples: seq<Sample>, delta: bool) returns (out: seq<Sample>)
    ensures if delta then RunningTotal(samples, out) else InOrder(out) && multiset(out) == multiset(samples)
  {
    out := SortSamples(samples);
    if delta {
      var a := new Sample[|out|](k requires 0 <= k < |out| => out[k]);
      assert a[..] == out;
      SortedTotal(samples, out);
      var count := Accumulate(a);
      out := a[..count];
    }
  }

  // ---------------------------------------------------------------- reading it as a counter

  /** Deltas a counter can have: finite and not negative, with stale markers between them. */
  ghost predicate CounterDeltas(s: seq<Sample>) {
    forall k :: 0 <= k < |s| ==> s[k].value.Stale? || (s[k].value.Finite? && s[k].value.v >= 0.0)
  }

  /** The points a query reads: stale markers are left out. */
  function Points(r: seq<Sample>): seq<Point> {
    if r == [] then []
    else
      var x := r[|r| - 1];
      Points(r[..|r| - 1]) + if x.value.Finite? then [Point(x.t, x.value.v)] else []
  }

  lemma {:induction false} TotalGrows(s: seq<Sample>, a: int, b: int)
    requires CounterDeltas(s) && a <= b
    ensures TotalUpTo(s, a) <= TotalUpTo(s, b)
  {
    if s != [] {
      TotalGrows(s[..|s| - 1], a, b);
    }
  }

  lemma {:induction false} PointsOfOutput(s: seq<Sample>, r: seq<Sample>)
    requires forall k :: 0 <= k < |r| ==> r[k].value.Finite? ==> r[k].value.v == TotalUpTo(s, r[k].t)
    requires forall k, l :: 0 <= k < l < |r| ==> r[k].t < r[l].t
    ensures var p := Points(r);
            (forall k :: 0 <= k < |p| ==> p[k].v == TotalUpTo(s, p[k].t))
            && Increasing(p) && (forall k :: 0 <= k < |p| ==> r != [] && p[k].t <= r[|r| - 1].t)
  {
    if r != [] {
      PointsOfOutput(s, r[..|r| - 1]);
    }
  }

  /** Over values that never fall, the rise is the difference of its ends. */
  lemma {:induction false} RiseWithoutResets(points: seq<Point>, base: real, begin: nat, k: nat)
    requires begin < k <= |points| && base <= points[begin].v
    requires forall i, j :: begin <= i < j < k ==> points[i].v <= points[j].v
    ensures Counter.Rise(points, base, begin, k) == points[k - 1].v - base
  {
    if begin < k - 1 {
      RiseWithoutResets(points, base, begin, k - 1);
    } else {
      assert Counter.Rise(points, base, begin, begin) == 0.0;
    }
  }

  /** Sum of the finite deltas after time a, up to and including time b. */
  function DeltasBetween(s: seq<Sample>, a: int, b: int): real {
    if s == [] then 0.0
    else
      var x := s[|s| - 1];
      DeltasBetween(s[..|s| - 1], a, b) + if a < x.t <= b && x.value.Finite? then x.value.v else 0.0
  }

  lemma {:induction false} DifferenceOfTotals(s: seq<Sample>, a: int, b: int)
    requires a <= b
    ensures TotalUpTo(s, b) - TotalUpTo(s, a) == DeltasBetween(s, a, b)
  {
    if s != [] {
      DifferenceOfTotals(s[..|s| - 1], a, b);
    }
  }

  /** Main result: over any stretch of the running total of non-negative deltas, the reference
      increase with a previous point is exactly the sum of the deltas after that point. */
  lemma IncreaseRecoversDeltas(s: seq<Sample>, m: nat, n: nat, first: nat, start: int, maxPrev: int, lookback: int)
    requires InOrder(s) && CounterDeltas(s)
    requires m <= n <= |Points(Accumulated(s, 0, 0.0))| && first < n - m
    requires Counter.HasPrevious(Counter.Increase, Points(Accumulated(s, 0, 0.0))[m..n], first, start, maxPrev,
                                 lookback)
    ensures var points := Points(Accumulated(s, 0, 0.0))[m..n];
            first > 0 && Counter.Value(Counter.Increase, points, first, start, maxPrev, lookback)
                      == Some(DeltasBetween(s, points[first - 1].t, points[|points| - 1].t))
  {
    hide TotalUpTo, Points, Accumulated, DeltasBetween, FiniteAt, LastOddAt, HasTime;
    var r := Accumulated(s, 0, 0.0);
    AccumulationIsRunningTotal(s);
    OutputIsTotal(s);
    PointsOfOutput(s, r);
    var points := Points(r)[m..n];
    var (begin, last) := (first - 1, |points| - 1);
    forall k | 0 <= k < |points| ensures points[k] == Points(r)[m + k] {}
    forall i, j | begin <= i < j < |points| ensures points[i].v <= points[j].v {
      TotalGrows(s, points[i].t, points[j].t);
    }
    RiseWithoutResets(points, points[begin].v, begin, |points|);
    DifferenceOfTotals(s, points[begin].t, points[last].t);
  }

  lemma OutputIsTotal(s: seq<Sample>)
    requires InOrder(s) && CounterDeltas(s)
    ensures forall k :: 0 <= k < |Accumulated(s, 0, 0.0)| && Accumulated(s, 0, 0.0)[k].value.Finite? ==>
              Accumulated(s, 0, 0.0)[k].value.v == TotalUpTo(s, Accumulated(s, 0, 0.0)[k].t)
  {
    hide TotalUpTo, Accumulated, FiniteAt;
    AccumulationIsRunningTotal(s);
    forall t ensures !LastOddAt(s, t).Finite? { OddIsNotFinite(s, t); }
  }

  lemma {:induction false} OddIsNotFinite(s: seq<Sample>, t: int)
    ensures !LastOddAt(s, t).Finite?
  {
    if s != [] {
      OddIsNotFinite(s[..|s| - 1], t);
    }
  }

  // ---------------------------------------------------------------- merging two lists

  /** A sample of the merge: every sample of the first list, and the samples of the other at
      times the first does not have. */
  predicate Merges(preferred: seq<Sample>, other: seq<Sample>, x: Sample) {
    x in preferred || (x in other && !HasTime(preferred, x.t))
  }

  /** What is still to be written when i samples of the first list and j of the other are used. */
  function Merged(preferred: seq<Sample>, i: nat, other: seq<Sample>, j: nat): seq<Sample>
    requires i <= |preferred| && j <= |other|
    decreases |preferred| - i + |other| - j
  {
    if i == |preferred| && j == |other| then []
    else if j == |other| || (i < |preferred| && preferred[i].t < other[j].t) then
      [preferred[i]] + Merged(preferred, i + 1, other, j)
    else if i == |preferred| || other[j].t < preferred[i].t then
      [other[j]] + Merged(preferred, i, other, j + 1)
    else
      [preferred[i]] + Merged(preferred, i + 1, other, j + 1)
  }

  ghost predicate DistinctTimes(s: seq<Sample>) {
    forall i, j :: 0 <= i < j < |s| ==> s[i].t != s[j].t
  }

  /** What a merge of two lists keeps: every sample of the first, every sample of the other at a
      time the first lacks, and nothing else; with one sample per time in each list it is
      exactly their union, again with one sample per time. */
  ghost predicate PrefersFirst(preferred: seq<Sample>, other: seq<Sample>, out: seq<Sample>) {
    (preferred == [] ==> out == other) && (other == [] ==> out == preferred)
    && (forall x :: Merges(preferred, other, x) ==> x in out)
    && (forall x :: x in out ==> x in preferred || x in other)
    && (DistinctTimes(preferred) && DistinctTimes(other) ==>
          DistinctTimes(out) && forall x :: x in out ==> Merges(preferred, other, x))
  }

  /** mergeSamplesPreferFirst: a list that stands alone is returned as it is, two lists are
      sorted and merged. */
  method MergePreferFirst(preferred: seq<Sample>, other: seq<Sample>)
    returns (out: seq<Sample>, ghost first: seq<Sample>, ghost second: seq<Sample>)
    ensures InOrder(first) && multiset(first) == multiset(preferred)
    ensures InOrder(second) && multiset(second) == multiset(other)
    ensures out == if other == [] then preferred else if preferred == [] then other else Merged(first, 0, second, 0)
    ensures PrefersFirst(preferred, other, out)
  {
    var a := SortSamples(preferred);
    var b := SortSamples(other);
    first, second := a, b;
    if other == [] {
      out := preferred;
    } else if preferred == [] {
      out := other;
    } else {
      out := MergeSorted(a, b);
      SortedMerge(preferred, other, a, b);
    }
  }

  lemma SortedMerge(preferred: seq<Sample>, other: seq<Sample>, a: seq<Sample>, b: seq<Sample>)
    requires preferred != [] && other != []
    requires InOrder(a) && multiset(a) == multiset(preferred) && InOrder(b) && multiset(b) == multiset(other)
    ensures PrefersFirst(preferred, other, Merged(a, 0, b, 0))
  {
    hide Merged, HasTime;
    var out := Merged(a, 0, b, 0);
    SameMembers(a, preferred);
    SameMembers(b, other);
    assert a[0..] == a && b[0..] == b;
    MergedInOrder(a, 0, b, 0);
    forall x | Merges(preferred, other, x) ensures x in out {
      MergedKeeps(a, 0, b, 0, x);
    }
    if DistinctTimes(preferred) && DistinctTimes(other) {
      DistinctSorts(preferred, a);
      DistinctSorts(other, b);
      MergeIsUnion(a, b);
      MergedStrictly(a, 0, b, 0);
    }
  }

  /** Lists that ascend strictly merge into one that does. */
  lemma {:induction false} MergedStrictly(preferred: seq<Sample>, i: nat, other: seq<Sample>, j: nat)
    requires i <= |preferred| && j <= |other| && StrictlyInOrder(preferred) && StrictlyInOrder(other)
    ensures StrictlyInOrder(Merged(preferred, i, other, j))
    decreases |preferred| - i + |other| - j
  {
    var out := Merged(preferred, i, other, j);
    if i < |preferred| || j < |other| {
      var (di, dj) := MergeStep(preferred, i, other, j);
      MergedStrictly(preferred, i + di, other, j + dj);
      MergedInOrder(preferred, i + di, other, j + dj);
      var rest := Merged(preferred, i + di, other, j + dj);
      assert out == [out[0]] + rest;
      forall k | 0 <= k < |rest| ensures out[0].t < rest[k].t {
        assert rest[k] in preferred[i + di..] || rest[k] in other[j + dj..];
      }
    }
  }

  /** Samples of different times, sorted, ascend strictly. */
  lemma DistinctSorts(s: seq<Sample>, sorted: seq<Sample>)
    requires DistinctTimes(s) && InOrder(sorted) && multiset(sorted) == multiset(s)
    ensures StrictlyInOrder(sorted)
  {
    forall i, j | 0 <= i < j < |sorted| ensures sorted[i].t < sorted[j].t {
      if sorted[i].t == sorted[j].t {
        SameTimeIsOnce(s, sorted, i, j);
      }
    }
  }

  lemma SameTimeIsOnce(s: seq<Sample>, sorted: seq<Sample>, i: nat, j: nat)
    requires DistinctTimes(s) && multiset(sorted) == multiset(s) && i < j < |sorted|
    ensures sorted[i].t != sorted[j].t
  {
    var x, y := sorted[i], sorted[j];
    assert x in multiset(sorted) && y in multiset(sorted);
    if x == y {
      assert sorted == sorted[..i] + [x] + sorted[i + 1..j] + [x] + sorted[j + 1..];
      assert multiset(s)[x] >= 2;
      Twice(s, x);
    } else {
      var k :| 0 <= k < |s| && s[k] == x;
      var l :| 0 <= l < |s| && s[l] == y;
    }
  }

  lemma {:induction false} Twice(s: seq<Sample>, x: Sample)
    requires multiset(s)[x] >= 2
    ensures !DistinctTimes(s)
  {
    var n := |s| - 1;
    assert s == s[..n] + [s[n]];
    if s[n] == x {
      assert x in multiset(s[..n]);
      var k :| 0 <= k < n && s[..n][k] == x;
      assert s[k].t == s[n].t;
    } else {
      Twice(s[..n], x);
    }
  }

  /** The two-index loop. */
  method MergeSorted(preferred: seq<Sample>, other: seq<Sample>) returns (out: seq<Sample>)
    ensures out == Merged(preferred, 0, other, 0)
  {
    hide Merged;
    out := [];
    var i, j := 0, 0;
    assert [] + Merged(preferred, 0, other, 0) == Merged(preferred, 0, other, 0);
    while i < |preferred| || j < |other|
      invariant 0 <= i <= |preferred| && 0 <= j <= |other|
      invariant out + Merged(preferred, i, other, j) == Merged(preferred, 0, other, 0)
      decreases |preferred| - i + |other| - j
    {
      MergedUnfolds(preferred, i, other, j);
      ghost var (was, step) := (out, MergeStep(preferred, i, other, j));
      ghost var rest := Merged(preferred, i + step.0, other, j + step.1);
      if j >= |other| || (i < |preferred| && preferred[i].t < other[j].t) {
        out := out + [preferred[i]];
        i := i + 1;
      } else if i >= |preferred| || other[j].t < preferred[i].t {
        out := out + [other[j]];
        j := j + 1;
      } else {
        out := out + [preferred[i]];
        i := i + 1;
        j := j + 1;
      }
      assert out + rest == was + ([out[|was|]] + rest);
    }
    MergedEnd(preferred, other);
    assert out + [] == out;
  }

  lemma MergedEnd(preferred: seq<Sample>, other: seq<Sample>)
    ensures Merged(preferred, |preferred|, other, |other|) == []
  {
  }

  /** How far one step of the merge moves the two positions. */
  function MergeStep(preferred: seq<Sample>, i: nat, other: seq<Sample>, j: nat): (nat, nat)
    requires i <= |preferred| && j <= |other| && (i < |preferred| || j < |other|)
  {
    if j == |other| || (i < |preferred| && preferred[i].t < other[j].t) then (1, 0)
    else if i == |preferred| || other[j].t < preferred[i].t then (0, 1)
    else (1, 1)
  }

  lemma MergedUnfolds(preferred: seq<Sample>, i: nat, other: seq<Sample>, j: nat)
    requires i <= |preferred| && j <= |other| && (i < |preferred| || j < |other|)
    ensures var (di, dj) := MergeStep(preferred, i, other, j);
            Merged(preferred, i, other, j)
            == [if di == 1 then preferred[i] else other[j]] + Merged(preferred, i + di, other, j + dj)
  {
  }

  /** Nothing is invented, the output is in time order, and nothing earlier than both
      positions is written. */
  lemma {:induction false} MergedInOrder(preferred: seq<Sample>, i: nat, other: seq<Sample>, j: nat)
    requires i <= |preferred| && j <= |other| && InOrder(preferred) && InOrder(other)
    ensures var out := Merged(preferred, i, other, j);
            InOrder(out) && (forall x :: x in out ==> x in preferred[i..] || x in other[j..])
    decreases |preferred| - i + |other| - j
  {
    var out := Merged(preferred, i, other, j);
    if i < |preferred| || j < |other| {
      var (di, dj) := MergeStep(preferred, i, other, j);
      MergedInOrder(preferred, i + di, other, j + dj);
      var rest := Merged(preferred, i + di, other, j + dj);
      assert out == [out[0]] + rest;
      forall k | 0 <= k < |rest| ensures out[0].t <= rest[k].t {
        assert rest[k] in preferred[i + di..] || rest[k] in other[j + dj..];
      }
    }
  }

  /** Every sample of the first list stays, and so does every sample of the other whose time
      the first list lacks. */
  lemma {:induction false} MergedKeeps(preferred: seq<Sample>, i: nat, other: seq<Sample>, j: nat, x: Sample)
    requires i <= |preferred| && j <= |other|
    requires x in preferred[i..] || (x in other[j..] && !HasTime(preferred, x.t))
    ensures x in Merged(preferred, i, other, j)
    decreases |preferred| - i + |other| - j
  {
    var (di, dj) := MergeStep(preferred, i, other, j);
    var out := Merged(preferred, i, other, j);
    assert out == [out[0]] + Merged(preferred, i + di, other, j + dj);
    if i < |preferred| {
      assert preferred[i..] == [preferred[i]] + preferred[i + 1..];
    }
    if j < |other| {
      assert other[j..] == [other[j]] + other[j + 1..];
    }
    if x != out[0] {
      MergedKeeps(preferred, i + di, other, j + dj, x);
    }
  }

  /** With one sample per time in each list, the first list wins at a shared time. */
  lemma {:induction false} MergedPrefersFirst(preferred: seq<Sample>, i: nat, other: seq<Sample>, j: nat, x: Sample)
    requires i <= |preferred| && j <= |other| && StrictlyInOrder(preferred) && StrictlyInOrder(other)
    requires forall k, l :: 0 <= k < i && j <= l < |other| ==> preferred[k].t < other[l].t
    requires x in Merged(preferred, i, other, j)
    ensures Merges(preferred, other, x)
    decreases |preferred| - i + |other| - j
  {
    var (di, dj) := MergeStep(preferred, i, other, j);
    var out := Merged(preferred, i, other, j);
    assert out == [out[0]] + Merged(preferred, i + di, other, j + dj);
    if x in Merged(preferred, i + di, other, j + dj) {
      MergedPrefersFirst(preferred, i + di, other, j + dj, x);
    } else if di == 1 {
      assert x == preferred[i];
    } else {
      assert x == other[j] && !HasTime(preferred, x.t);
    }
  }

  /** Main result on merging: the union of the two lists in time order, the first one winning. */
  lemma MergeIsUnion(preferred: seq<Sample>, other: seq<Sample>)
    requires StrictlyInOrder(preferred) && StrictlyInOrder(other)
    ensures var out := Merged(preferred, 0, other, 0);
            InOrder(out) && forall x :: x in out <==> Merges(preferred, other, x)
  {
    hide Merged, HasTime;
    MergedInOrder(preferred, 0, other, 0);
    var out := Merged(preferred, 0, other, 0);
    forall x ensures x in out <==> Merges(preferred, other, x) {
      if x in out {
        MergedPrefersFirst(preferred, 0, other, 0, x);
      }
      if Merges(preferred, other, x) {
        assert preferred[0..] == preferred && other[0..] == other;
        MergedKeeps(preferred, 0, other, 0, x);
      }
    }
  }
}
