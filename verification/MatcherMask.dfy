/** Selecting the series of many exact selectors in one pass over the label index: one bit per
    matcher, OR-ed per branch and series. */
module MatcherMask {
  import opened Options
  import opened Bits
  import opened Selectors

  /** One row of the label index. */
  datatype Entry = Entry(metric: string, name: string, value: string, id: nat)

  // ---------------------------------------------------------------- 64-bit masks

  /** 1 << n in 64 bits. */
  function Shifted(n: nat): nat { if n < 64 then Pow2(n) else 0 }

  function FullBranchMask(matchers: nat): nat { (Shifted(matchers) + TWO64 - 1) % TWO64 }

  lemma Pow2Grows(i: nat, j: nat)
    requires i <= j
    ensures Pow2(i) <= Pow2(j)
    decreases j
  {
    if i < j {
      Pow2Grows(i, j - 1);
    }
  }

  /** The mask has one bit for each matcher exactly up to 64 of them; 64 is the case in which
      the shift wraps to zero and the subtraction to all ones. */
  lemma FullMaskBitsIff(n: nat)
    ensures FullBranchMask(n) == Pow2(n) - 1 <==> n <= 64
  {
    hide Pow2;
    Pow2Is64();
    if n < 64 {
      Pow2Grows(n, 64);
      assert Pow2(n) + TWO64 - 1 == TWO64 + (Pow2(n) - 1);
    } else {
      Pow2Grows(64, n);
      if n > 64 {
        Pow2Grows(65, n);
        assert Pow2(65) == 2 * Pow2(64) by { OneMore(64); }
      }
    }
  }

  lemma OneMore(n: nat)
    ensures Pow2(n + 1) == 2 * Pow2(n)
  {
  }

  // ---------------------------------------------------------------- matcher rows

  datatype MatcherRow = MatcherRow(branch: nat, fullMask: nat, bit: nat, metric: string, name: string, value: string)

  function RowFor(branch: nat, wanted: MatcherSet, p: nat): MatcherRow
    requires p < |wanted.labels|
  {
    MatcherRow(branch, FullBranchMask(|wanted.labels|), Shifted(p), wanted.metric, wanted.labels[p].name,
        wanted.labels[p].value)
  }

  predicate IsRow(sets: seq<MatcherSet>, r: MatcherRow, b: nat, p: nat) {
    b < |sets| && p < |sets[b].labels| && r == RowFor(b, sets[b], p)
  }

  ghost predicate AreRows(sets: seq<MatcherSet>, rows: seq<MatcherRow>) {
    (forall r :: r in rows ==> exists b: nat, p: nat :: IsRow(sets, r, b, p))
    && (forall b: nat, p: nat :: b < |sets| && p < |sets[b].labels| ==> RowFor(b, sets[b], p) in rows)
  }

  datatype Lists = Lists(metrics: seq<string>, names: seq<string>, values: seq<string>)

  /** The WHERE lists name every metric, label name and label value of the rows. */
  predicate Listed(lists: Lists, r: MatcherRow) {
    r.metric in lists.metrics && r.name in lists.names && r.value in lists.values
  }

  function AddOnce(list: seq<string>, x: string): seq<string> {
    if x in list then list else list + [x]
  }

  method BuildRows(sets: seq<MatcherSet>) returns (rows: seq<MatcherRow>, lists: Lists)
    ensures AreRows(sets, rows)
    ensures forall r :: r in rows ==> Listed(lists, r)
  {
    rows, lists := [], Lists([], [], []);
    for b := 0 to |sets|
      invariant forall r :: r in rows ==> exists c: nat, p: nat :: c < b && IsRow(sets, r, c, p)
      invariant forall c: nat, p: nat :: c < b && p < |sets[c].labels| ==> RowFor(c, sets[c], p) in rows
      invariant forall r :: r in rows ==> Listed(lists, r)
    {
      var s := sets[b];
      lists := lists.(metrics := AddOnce(lists.metrics, s.metric));
      for p := 0 to |s.labels|
        invariant s.metric in lists.metrics
        invariant forall r :: r in rows ==> exists c: nat, q: nat :: c <= b && IsRow(sets, r, c, q)
        invariant forall c: nat, q: nat :: c < b && q < |sets[c].labels| ==> RowFor(c, sets[c], q) in rows
        invariant forall q: nat :: q < p ==> RowFor(b, s, q) in rows
        invariant forall r :: r in rows ==> Listed(lists, r)
      {
        var l := s.labels[p];
        lists := lists.(names := AddOnce(lists.names, l.name), values := AddOnce(lists.values, l.value));
        var row := RowFor(b, s, p);
        assert IsRow(sets, row, b, p);
        rows := rows + [row];
      }
    }
  }

  // ---------------------------------------------------------------- the grouped join

  predicate Joins(e: Entry, r: MatcherRow) {
    e.metric == r.metric && e.name == r.name && e.value == r.value
  }

  /** The WHERE clause over the label index; `active` is the optional activity filter. */
  predicate Passes(lists: Lists, active: nat -> bool, e: Entry) {
    e.metric in lists.metrics && e.name in lists.names && e.value in lists.values && active(e.id)
  }

  /** groupBitOr over one entry's matcher rows of a branch. */
  function OrOfRows(e: Entry, rows: seq<MatcherRow>, branch: nat): nat {
    if rows == [] then 0
    else
      var r := rows[|rows| - 1];
      Or(OrOfRows(e, rows[..|rows| - 1], branch), if r.branch == branch && Joins(e, r) then r.bit else 0)
  }

  /** groupBitOr over the whole group of a branch and series. */
  function GroupBitOr(index: seq<Entry>, lists: Lists, active: nat -> bool, rows: seq<MatcherRow>, branch: nat,
                      id: nat): nat {
    if index == [] then 0
    else
      var e := index[|index| - 1];
      Or(GroupBitOr(index[..|index| - 1], lists, active, rows, branch, id),
         if e.id == id && Passes(lists, active, e) then OrOfRows(e, rows, branch) else 0)
  }

  /** A branch keeps a series when the OR is the full mask; an empty group has no row, and its
      OR is zero. */
  predicate BranchKeeps(index: seq<Entry>, lists: Lists, active: nat -> bool, rows: seq<MatcherRow>,
                        wanted: MatcherSet, branch: nat, id: nat) {
    GroupBitOr(index, lists, active, rows, branch, id) == FullBranchMask(|wanted.labels|)
  }

  predicate RowHit(e: Entry, r: MatcherRow, branch: nat, i: nat) {
    r.branch == branch && Joins(e, r) && Bit(r.bit, i)
  }

  lemma {:induction false} BitsOfRows(e: Entry, rows: seq<MatcherRow>, branch: nat, i: nat)
    ensures Bit(OrOfRows(e, rows, branch), i) <==> exists r :: r in rows && RowHit(e, r, branch, i)
  {
    hide Or, Bit, Joins;
    ZeroBits(i);
    if rows != [] {
      var n := |rows| - 1;
      var r := rows[n];
      BitsOfRows(e, rows[..n], branch, i);
      OrBits(OrOfRows(e, rows[..n], branch), if r.branch == branch && Joins(e, r) then r.bit else 0, i);
      assert rows == rows[..n] + [r];
      if x :| x in rows[..n] && RowHit(e, x, branch, i) {
        assert x in rows;
      }
      if x :| x in rows && RowHit(e, x, branch, i) {
        assert x in rows[..n] || x == r;
      }
      assert RowHit(e, r, branch, i) ==> r in rows;
    }
  }

  lemma {:induction false} BitsOfGroup(index: seq<Entry>, lists: Lists, active: nat -> bool, rows: seq<MatcherRow>,
                                       branch: nat, id: nat, i: nat)
    ensures Bit(GroupBitOr(index, lists, active, rows, branch, id), i)
       <==> exists e :: e in index && e.id == id && Passes(lists, active, e) && Bit(OrOfRows(e, rows, branch), i)
  {
    hide Or, Bit, Passes, OrOfRows;
    ZeroBits(i);
    if index != [] {
      var n := |index| - 1;
      var e := index[n];
      BitsOfGroup(index[..n], lists, active, rows, branch, id, i);
      OrBits(GroupBitOr(index[..n], lists, active, rows, branch, id),
             if e.id == id && Passes(lists, active, e) then OrOfRows(e, rows, branch) else 0, i);
      assert index == index[..n] + [e];
    }
  }

  /** An equality is present for a series when the index has a row for it. */
  predicate Present(index: seq<Entry>, metric: string, l: Label, id: nat) {
    Entry(metric, l.name, l.value, id) in index
  }

  /** Each bit of the group says whether its matcher's equality is present. */
  lemma BitIsPresence(index: seq<Entry>, lists: Lists, active: nat -> bool, rows: seq<MatcherRow>,
                      sets: seq<MatcherSet>, branch: nat, id: nat, i: nat)
    requires AreRows(sets, rows) && (forall r :: r in rows ==> Listed(lists, r))
    requires branch < |sets| && |sets[branch].labels| <= 64
    ensures Bit(GroupBitOr(index, lists, active, rows, branch, id), i)
       <==> i < |sets[branch].labels| && active(id) && Present(index, sets[branch].metric, sets[branch].labels[i], id)
  {
    hide GroupBitOr, OrOfRows, Bit, FullBranchMask, Pow2, IsRow;
    BitsOfGroup(index, lists, active, rows, branch, id, i);
    var s := sets[branch];
    if Bit(GroupBitOr(index, lists, active, rows, branch, id), i) {
      var e :| e in index && e.id == id && Passes(lists, active, e) && Bit(OrOfRows(e, rows, branch), i);
      BitsOfRows(e, rows, branch, i);
      var r :| r in rows && RowHit(e, r, branch, i);
      var b: nat, p: nat :| IsRow(sets, r, b, p);
      RowIs(sets, r, b, p);
      OneBit(p, i);
      assert e == Entry(s.metric, s.labels[i].name, s.labels[i].value, id);
    }
    if i < |s.labels| && active(id) && Present(index, s.metric, s.labels[i], id) {
      var e := Entry(s.metric, s.labels[i].name, s.labels[i].value, id);
      var r := RowFor(branch, s, i);
      OneBit(i, i);
      BitsOfRows(e, rows, branch, i);
      assert RowHit(e, r, branch, i);
      assert Listed(lists, r);
    }
  }

  lemma RowIs(sets: seq<MatcherSet>, r: MatcherRow, b: nat, p: nat)
    requires IsRow(sets, r, b, p)
    ensures b < |sets| && p < |sets[b].labels| && r.branch == b && r.bit == Shifted(p)
    ensures r.metric == sets[b].metric && r.name == sets[b].labels[p].name && r.value == sets[b].labels[p].value
  {
  }

  /** Main result: whatever the index holds, duplicates included, a branch keeps a series if
      and only if the series is active and every label equality of the branch is present for
      its metric. */
  lemma BranchKeepsIff(index: seq<Entry>, lists: Lists, active: nat -> bool, rows: seq<MatcherRow>,
                       sets: seq<MatcherSet>, branch: nat, id: nat)
    requires AreRows(sets, rows) && (forall r :: r in rows ==> Listed(lists, r))
    requires branch < |sets| && WellFormed(sets[branch])
    ensures BranchKeeps(index, lists, active, rows, sets[branch], branch, id)
       <==> active(id) && forall p :: 0 <= p < |sets[branch].labels| ==>
              Present(index, sets[branch].metric, sets[branch].labels[p], id)
  {
    hide GroupBitOr, Bit, FullBranchMask, AreRows, Present;
    var (s, group) := (sets[branch], GroupBitOr(index, lists, active, rows, branch, id));
    var n := |s.labels|;
    FullMaskBitsIff(n);
    forall i: nat ensures Bit(group, i) <==> i < n && active(id) && Present(index, s.metric, s.labels[i], id) {
      BitIsPresence(index, lists, active, rows, sets, branch, id, i);
    }
    var mask := Pow2(n) - 1;
    forall i: nat ensures Bit(mask, i) <==> i < n { LowBits(n, i); }
    if group == mask {
      assert Bit(mask, 0);
      forall p | 0 <= p < n ensures Present(index, s.metric, s.labels[p], id) { assert Bit(mask, p); }
    } else if active(id) && forall p :: 0 <= p < n ==> Present(index, s.metric, s.labels[p], id) {
      forall i: nat ensures Bit(group, i) <==> Bit(mask, i) { assert Bit(mask, i) <==> i < n; }
      SameBits(group, mask);
    }
  }

  // ---------------------------------------------------------------- the union selects what the selectors select

  /** The index holds one or more rows for each label of each series, and nothing else. */
  ghost predicate Indexes(index: seq<Entry>, series: map<nat, Labels>) {
    forall e :: e in index <==>
      e.id in series && ValueOf(series[e.id], METRIC_NAME) == e.metric
      && e.name in series[e.id] && series[e.id][e.name] == e.value
  }

  predicate UnionSelects(index: seq<Entry>, lists: Lists, active: nat -> bool, rows: seq<MatcherRow>,
                         sets: seq<MatcherSet>, id: nat) {
    exists b :: 0 <= b < |sets| && BranchKeeps(index, lists, active, rows, sets[b], b, id)
  }

  lemma SetSelectsIsPresence(index: seq<Entry>, series: map<nat, Labels>, wanted: MatcherSet, id: nat)
    requires Indexes(index, series) && WellFormed(wanted)
    ensures (forall p :: 0 <= p < |wanted.labels| ==> Present(index, wanted.metric, wanted.labels[p], id))
       <==> id in series && SetSelects(wanted.metric, wanted.labels, series[id])
  {
    if forall p :: 0 <= p < |wanted.labels| ==> Present(index, wanted.metric, wanted.labels[p], id) {
      assert Present(index, wanted.metric, wanted.labels[0], id);
      forall p | 0 <= p < |wanted.labels|
        ensures id in series && ValueOf(series[id], wanted.labels[p].name) == wanted.labels[p].value
      {
        assert Present(index, wanted.metric, wanted.labels[p], id);
      }
    }
    if id in series && SetSelects(wanted.metric, wanted.labels, series[id]) {
      forall p | 0 <= p < |wanted.labels| ensures Present(index, wanted.metric, wanted.labels[p], id) {
        assert ValueOf(series[id], wanted.labels[p].name) == wanted.labels[p].value != "";
      }
    }
  }

  /** End to end: over a faithful index the one-pass union selects exactly the active series
      that the kept matchers of some selector select; when every dropped pattern is harmless
      these are the series that some selector selects. */
  lemma UnionSelectsMatching(env: Env, index: seq<Entry>, series: map<nat, Labels>, lists: Lists, active: nat -> bool,
                             rows: seq<MatcherRow>, selectors: seq<seq<Matcher>>, sets: seq<MatcherSet>, id: nat)
    requires Indexes(index, series) && AreRows(sets, rows) && (forall r :: r in rows ==> Listed(lists, r))
    requires |selectors| == |sets| && forall b :: 0 <= b < |sets| ==> WellFormed(sets[b])
    requires forall b, s :: 0 <= b < |sets| ==>
      (KeptSelect(env, selectors[b], s) <==> SetSelects(sets[b].metric, sets[b].labels, s))
    ensures UnionSelects(index, lists, active, rows, sets, id)
       <==> active(id) && id in series && exists b :: 0 <= b < |selectors| && KeptSelect(env, selectors[b], series[id])
    ensures (forall b, i :: 0 <= b < |sets| && 0 <= i < |selectors[b]| && Noop(selectors[b][i]) ==>
                              Harmless(env, sets[b], selectors[b][i])) ==>
      (UnionSelects(index, lists, active, rows, sets, id)
       <==> active(id) && id in series && exists b :: 0 <= b < |selectors| && SelectedBy(env, selectors[b], series[id]))
  {
    hide BranchKeeps, Present, Indexes, AreRows, SetSelects, SelectedBy, KeptSelect, WellFormed, Harmless, Noop;
    forall b | 0 <= b < |sets|
      ensures BranchKeeps(index, lists, active, rows, sets[b], b, id)
         <==> active(id) && id in series && KeptSelect(env, selectors[b], series[id]) {
      BranchKeepsIff(index, lists, active, rows, sets, b, id);
      SetSelectsIsPresence(index, series, sets[b], id);
    }
    if forall b, i :: 0 <= b < |sets| && 0 <= i < |selectors[b]| && Noop(selectors[b][i]) ==>
                        Harmless(env, sets[b], selectors[b][i]) {
      forall b | 0 <= b < |sets| && id in series
        ensures SelectedBy(env, selectors[b], series[id]) <==> KeptSelect(env, selectors[b], series[id]) {
        SameSeriesIff(env, selectors[b], sets[b]);
      }
    }
  }

  // ---------------------------------------------------------------- the single-label form

  datatype Single = Single(metric: string, name: string, values: seq<string>)

  predicate OneLabel(sets: seq<MatcherSet>) {
    sets != [] && forall b :: 0 <= b < |sets| ==>
      sets[b].metric == sets[0].metric && |sets[b].labels| == 1 && |sets[0].labels| == 1
      && sets[b].labels[0].name == sets[0].labels[0].name
  }

  /** Recognises unions of one label on one metric, and collects the values without repeats. */
  method SingleExactLabel(sets: seq<MatcherSet>) returns (r: Option<Single>)
    requires forall b :: 0 <= b < |sets| ==> WellFormed(sets[b])
    ensures r.Some? <==> OneLabel(sets)
    ensures r.Some? ==> r.value.metric == sets[0].metric && r.value.name == sets[0].labels[0].name
    ensures r.Some? ==> forall v :: v in r.value.values <==> exists b :: 0 <= b < |sets| && sets[b].labels[0].value == v
    ensures r.Some? ==> forall i, j :: 0 <= i < j < |r.value.values| ==> r.value.values[i] != r.value.values[j]
  {
    if sets == [] {
      return None;
    }
    var metric, labelName, values, seen := sets[0].metric, "", [], {};
    for b := 0 to |sets|
      invariant labelName == if b == 0 then "" else sets[0].labels[0].name
      invariant forall c :: 0 <= c < b ==>
        sets[c].metric == metric && |sets[c].labels| == 1 && sets[c].labels[0].name == sets[0].labels[0].name
      invariant forall v :: v in values <==> v in seen
      invariant forall v :: v in values <==> exists c :: 0 <= c < b && sets[c].labels[0].value == v
      invariant forall i, j :: 0 <= i < j < |values| ==> values[i] != values[j]
    {
      if sets[b].metric != metric || |sets[b].labels| != 1 {
        return None;
      }
      var l := sets[b].labels[0];
      if labelName == "" {
        labelName := l.name;
      }
      if l.name != labelName {
        return None;
      }
      if l.value in seen {
        continue;
      }
      seen := seen + {l.value};
      values := values + [l.value];
    }
    r := Some(Single(metric, labelName, values));
  }

  /** No activity filter. */
  function Everything(): nat -> bool { _ => true }

  predicate SingleSelects(index: seq<Entry>, single: Single, id: nat) {
    exists e :: e in index && e.id == id && e.metric == single.metric && e.name == single.name
        && e.value in single.values
  }

  /** The single-label form selects the same series as the one-pass union without the activity
      filter. */
  lemma SingleIsUnion(index: seq<Entry>, lists: Lists, rows: seq<MatcherRow>, sets: seq<MatcherSet>, single: Single,
                      id: nat)
    requires AreRows(sets, rows) && (forall r :: r in rows ==> Listed(lists, r))
    requires (forall b :: 0 <= b < |sets| ==> WellFormed(sets[b])) && OneLabel(sets)
    requires single.metric == sets[0].metric && single.name == sets[0].labels[0].name
    requires forall v :: v in single.values <==> exists b :: 0 <= b < |sets| && sets[b].labels[0].value == v
    ensures SingleSelects(index, single, id) <==> UnionSelects(index, lists, Everything(), rows, sets, id)
  {
    hide BranchKeeps, AreRows;
    forall b | 0 <= b < |sets|
      ensures BranchKeeps(index, lists, Everything(), rows, sets[b], b, id)
         <==> Present(index, sets[b].metric, sets[b].labels[0], id) {
      BranchKeepsIff(index, lists, Everything(), rows, sets, b, id);
    }
    if SingleSelects(index, single, id) {
      var e :| e in index && e.id == id && e.metric == single.metric && e.name == single.name
          && e.value in single.values;
      var b :| 0 <= b < |sets| && sets[b].labels[0].value == e.value;
      assert e == Entry(sets[b].metric, sets[b].labels[0].name, sets[b].labels[0].value, id);
      assert Present(index, sets[b].metric, sets[b].labels[0], id);
    }
    if b :| 0 <= b < |sets| && BranchKeeps(index, lists, Everything(), rows, sets[b], b, id) {
      assert Present(index, sets[b].metric, sets[b].labels[0], id);
      assert Entry(sets[b].metric, sets[b].labels[0].name, sets[b].labels[0].value, id) in index;
    }
  }
}
