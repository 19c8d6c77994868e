/** PromQL `or`: nested evaluation, the flattened SQL union that keeps the rows of the first
    branch, and the in-place union of compact histogram branches. */
module UnionOr {
  import opened Options
  import opened Samples

  datatype Metric = Metric(name: string, labels: seq<(string, string)>)

  /** One series at one step; a value of None is NaN. */
  datatype Row = Row(metric: Metric, ts: int, value: Option<real>)

  /** Rows match when they have the same labels, ignoring the metric name, at the same step. */
  datatype Key = Key(labels: seq<(string, string)>, ts: int)

  function KeyOf(r: Row): Key { Key(r.metric.labels, r.ts) }

  predicate Has(rows: seq<Row>, key: Key) {
    exists i :: 0 <= i < |rows| && KeyOf(rows[i]) == key
  }

  /** The rows of the right operand that no row on the left matches. */
  function Unmatched(rows: seq<Row>, left: seq<Row>): seq<Row> {
    if rows == [] then []
    else
      var n := |rows| - 1;
      Unmatched(rows[..n], left) + if Has(left, KeyOf(rows[n])) then [] else [rows[n]]
  }

  /** A union in any parenthesisation. `plain` is false for `or` with on(...) or ignoring(...). */
  datatype Expr = Branch(text: string) | Or(left: Expr, right: Expr, plain: bool)

  /** How a branch evaluates, and whether the plan can express it. Equal text is equal meaning. */
  datatype Branches = Branches(rows: string -> seq<Row>, supported: string -> bool)

  predicate Plain(e: Expr) { e.Branch? || (e.plain && Plain(e.left) && Plain(e.right)) }

  /** The engine's `or`, operator by operator. */
  function Nested(b: Branches, e: Expr): seq<Row> {
    match e
    case Branch(text) => b.rows(text)
    case Or(l, r, _) => Nested(b, l) + Unmatched(Nested(b, r), Nested(b, l))
  }

  function Leaves(e: Expr): seq<string> {
    match e
    case Branch(text) => [text]
    case Or(l, r, _) => Leaves(l) + Leaves(r)
  }

  /** Branches in order, each keeping the rows that no earlier branch matches. */
  function FirstWins(b: Branches, texts: seq<string>): seq<Row> {
    if texts == [] then []
    else
      var before := FirstWins(b, texts[..|texts| - 1]);
      before + Unmatched(b.rows(texts[|texts| - 1]), before)
  }

  // ---------------------------------------------------------------- nesting does not matter

  lemma HasInBoth(x: seq<Row>, y: seq<Row>, key: Key)
    ensures Has(x + y, key) <==> Has(x, key) || Has(y, key)
  {
    if i :| 0 <= i < |x| && KeyOf(x[i]) == key {
      assert KeyOf((x + y)[i]) == key;
    }
    if i :| 0 <= i < |y| && KeyOf(y[i]) == key {
      assert KeyOf((x + y)[|x| + i]) == key;
    }
  }

  lemma {:induction false} UnmatchedOfBoth(x: seq<Row>, y: seq<Row>, left: seq<Row>)
    ensures Unmatched(x + y, left) == Unmatched(x, left) + Unmatched(y, left)
  {
    if y == [] {
      assert x + y == x;
    } else {
      var n := |y| - 1;
      assert (x + y)[..|x| + n] == x + y[..n];
      UnmatchedOfBoth(x, y[..n], left);
    }
  }

  /** What is unmatched has no key of the left side, and no key is lost. */
  lemma {:induction false} UnmatchedKeys(rows: seq<Row>, left: seq<Row>, key: Key)
    ensures Has(Unmatched(rows, left), key) <==> Has(rows, key) && !Has(left, key)
  {
    hide Has;
    if rows != [] {
      var n := |rows| - 1;
      UnmatchedKeys(rows[..n], left, key);
      HasInBoth(rows[..n], [rows[n]], key);
      assert rows[..n] + [rows[n]] == rows;
      HasOne(rows[n], key);
      HasNone(key);
      HasInBoth(Unmatched(rows[..n], left), if Has(left, KeyOf(rows[n])) then [] else [rows[n]], key);
    } else {
      HasNone(key);
    }
  }

  lemma HasOne(r: Row, key: Key)
    ensures Has([r], key) <==> KeyOf(r) == key
  {
    assert KeyOf([r][0]) == KeyOf(r);
  }

  lemma HasNone(key: Key)
    ensures !Has([], key)
  {
  }

  /** Filtering against two left operands in turn is filtering against both. */
  lemma {:induction false} UnmatchedTwice(rows: seq<Row>, x: seq<Row>, y: seq<Row>)
    ensures Unmatched(Unmatched(rows, x), y) == Unmatched(rows, x + y)
  {
    hide Has;
    if rows != [] {
      var n := |rows| - 1;
      UnmatchedTwice(rows[..n], x, y);
      HasInBoth(x, y, KeyOf(rows[n]));
      var last := if Has(x, KeyOf(rows[n])) then [] else [rows[n]];
      UnmatchedOfBoth(Unmatched(rows[..n], x), last, y);
      UnmatchedOne(rows[n], y);
      assert Unmatched([], y) == [];
    }
  }

  lemma UnmatchedOne(r: Row, left: seq<Row>)
    ensures Unmatched([r], left) == if Has(left, KeyOf(r)) then [] else [r]
  {
    assert [r][..0] == [];
  }

  lemma {:induction false} UnmatchedSame(rows: seq<Row>, x: seq<Row>, y: seq<Row>)
    requires forall key :: Has(x, key) <==> Has(y, key)
    ensures Unmatched(rows, x) == Unmatched(rows, y)
  {
    if rows != [] {
      UnmatchedSame(rows[..|rows| - 1], x, y);
    }
  }

  lemma {:induction false} NothingUnmatched(rows: seq<Row>, left: seq<Row>)
    requires forall key :: Has(rows, key) ==> Has(left, key)
    ensures Unmatched(rows, left) == []
  {
    hide Has;
    if rows != [] {
      var n := |rows| - 1;
      assert rows[..n] + [rows[n]] == rows;
      forall key ensures Has(rows[..n], key) ==> Has(left, key) {
        HasInBoth(rows[..n], [rows[n]], key);
      }
      HasOne(rows[n], KeyOf(rows[n]));
      HasInBoth(rows[..n], [rows[n]], KeyOf(rows[n]));
      NothingUnmatched(rows[..n], left);
    }
  }

  /** `or` is associative, row by row and in order. */
  lemma OrIsAssociative(x: seq<Row>, y: seq<Row>, z: seq<Row>)
    ensures (x + Unmatched(y, x)) + Unmatched(z, x + Unmatched(y, x))
         == x + Unmatched(y + Unmatched(z, y), x)
  {
    hide Has, Unmatched;
    var xy := x + Unmatched(y, x);
    UnmatchedOfBoth(y, Unmatched(z, y), x);
    UnmatchedTwice(z, y, x);
    forall key ensures Has(xy, key) <==> Has(y + x, key) {
      HasInBoth(x, Unmatched(y, x), key);
      UnmatchedKeys(y, x, key);
      HasInBoth(y, x, key);
    }
    UnmatchedSame(z, xy, y + x);
  }

  lemma {:induction false} FirstWinsOfBoth(b: Branches, x: seq<string>, y: seq<string>)
    ensures FirstWins(b, x + y) == FirstWins(b, x) + Unmatched(FirstWins(b, y), FirstWins(b, x))
  {
    hide Unmatched;
    if y == [] {
      assert x + y == x;
      assert Unmatched([], FirstWins(b, x)) == [] by { UnmatchedEmpty(FirstWins(b, x)); }
    } else {
      var n := |y| - 1;
      assert (x + y)[..|x| + n] == x + y[..n];
      FirstWinsOfBoth(b, x, y[..n]);
      OrIsAssociative(FirstWins(b, x), FirstWins(b, y[..n]), b.rows(y[n]));
    }
  }

  lemma UnmatchedEmpty(left: seq<Row>)
    ensures Unmatched([], left) == []
  {
  }

  /** Any parenthesisation means: branches in order, the first one wins. */
  lemma {:induction false} NestedIsFirstWins(b: Branches, e: Expr)
    ensures Nested(b, e) == FirstWins(b, Leaves(e))
  {
    hide Unmatched;
    match e
    case Branch(text) =>
      assert [text][..0] == [];
      UnmatchedAll(b.rows(text));
      assert [] + b.rows(text) == b.rows(text);
    case Or(l, r, _) =>
      NestedIsFirstWins(b, l);
      NestedIsFirstWins(b, r);
      FirstWinsOfBoth(b, Leaves(l), Leaves(r));
  }

  lemma {:induction false} UnmatchedAll(rows: seq<Row>)
    ensures Unmatched(rows, []) == rows
  {
    if rows != [] {
      UnmatchedAll(rows[..|rows| - 1]);
      HasNone(KeyOf(rows[|rows| - 1]));
    }
  }

  // ---------------------------------------------------------------- repeated branches

  /** The distinct texts in order of first occurrence, after those already collected. */
  function Collected(soFar: seq<string>, texts: seq<string>): (r: seq<string>)
    ensures |r| >= |soFar|
    decreases |texts|
  {
    if texts == [] then soFar
    else Collected(if texts[0] in soFar then soFar else soFar + [texts[0]], texts[1..])
  }

  lemma {:induction false} CollectedOfBoth(soFar: seq<string>, x: seq<string>, y: seq<string>)
    ensures Collected(soFar, x + y) == Collected(Collected(soFar, x), y)
    decreases |x|
  {
    if x == [] {
      assert x + y == y;
    } else {
      assert (x + y)[1..] == x[1..] + y;
      CollectedOfBoth(if x[0] in soFar then soFar else soFar + [x[0]], x[1..], y);
    }
  }

  /** Every row of a branch is matched once the branch has been seen. */
  lemma {:induction false} BranchIsCovered(b: Branches, texts: seq<string>, text: string, key: Key)
    requires text in texts && Has(b.rows(text), key)
    ensures Has(FirstWins(b, texts), key)
  {
    hide Has, Unmatched;
    var n := |texts| - 1;
    var before := FirstWins(b, texts[..n]);
    var last := b.rows(texts[n]);
    HasInBoth(before, Unmatched(last, before), key);
    UnmatchedKeys(last, before, key);
    if texts[n] != text {
      BranchIsCovered(b, texts[..n], text, key);
    }
  }

  /** Dropping repeated branches changes nothing. */
  lemma {:induction false} RepeatsAddNothing(b: Branches, soFar: seq<string>, texts: seq<string>)
    ensures FirstWins(b, Collected(soFar, texts)) == FirstWins(b, soFar + texts)
    decreases |texts|
  {
    hide Has, Unmatched;
    if texts == [] {
      assert soFar + texts == soFar;
    } else {
      var rest := texts[1..];
      assert soFar + texts == (soFar + [texts[0]]) + rest;
      if texts[0] in soFar {
        RepeatsAddNothing(b, soFar, rest);
        FirstWinsOfBoth(b, soFar, rest);
        FirstWinsOfBoth(b, soFar + [texts[0]], rest);
        var kept := FirstWins(b, soFar);
        assert (soFar + [texts[0]])[..|soFar|] == soFar;
        forall key ensures Has(b.rows(texts[0]), key) ==> Has(kept, key) {
          if Has(b.rows(texts[0]), key) {
            BranchIsCovered(b, soFar, texts[0], key);
          }
        }
        NothingUnmatched(b.rows(texts[0]), kept);
        assert kept + [] == kept;
      } else {
        RepeatsAddNothing(b, soFar + [texts[0]], rest);
      }
    }
  }

  const MAX_BRANCHES := 1024

  predicate Flattens(b: Branches, soFar: seq<string>, e: Expr) {
    Plain(e) && |Collected(soFar, Leaves(e))| <= 1024
    && forall text :: text in Leaves(e) && text !in soFar ==> b.supported(text)
  }

  /** The collector of the native plan: it updates its branch list and its set of seen texts. */
  class Flattener {
    var branches: seq<string>
    var seen: set<string>

    ghost predicate Valid()
      reads this
    {
      |branches| <= MAX_BRANCHES && forall text :: text in seen <==> text in branches
    }

    constructor ()
      ensures Valid() && branches == []
    {
      branches, seen := [], {};
    }

    method Collect(b: Branches, e: Expr) returns (ok: bool)
      requires Valid()
      modifies this
      ensures ok <==> Flattens(b, old(branches), e)
      ensures ok ==> Valid() && branches == Collected(old(branches), Leaves(e))
      decreases e
    {
      match e
      case Or(left, right, plain) =>
        if !plain {
          return false;
        }
        CollectedOfBoth(branches, Leaves(left), Leaves(right));
        KeepsCollected(branches, Leaves(left));
        ghost var was := branches;
        ok := Collect(b, left);
        if ok {
          ok := Collect(b, right);
        }
        assert ok <==> Flattens(b, was, e) by {
          assert Leaves(e) == Leaves(left) + Leaves(right);
        }
      case Branch(text) =>
        assert Collected(branches, [text]) == if text in branches then branches else branches + [text];
        if text in seen {
          return true;
        }
        assert text in Leaves(e);
        if |branches| >= MAX_BRANCHES || !b.supported(text) {
          return false;
        }
        seen, branches := seen + {text}, branches + [text];
        ok := true;
    }
  }

  lemma {:induction false} KeepsCollected(soFar: seq<string>, texts: seq<string>)
    ensures forall text :: text in Collected(soFar, texts) <==> text in soFar || text in texts
    decreases |texts|
  {
    if texts != [] {
      KeepsCollected(if texts[0] in soFar then soFar else soFar + [texts[0]], texts[1..]);
    }
  }

  // ---------------------------------------------------------------- which rows are kept

  /** Some row has these labels at this time, whatever its name and value. */
  ghost predicate Covered(rows: seq<Row>, labels: seq<(string, string)>, ts: int) {
    exists other :: other in rows && other.metric.labels == labels && other.ts == ts
  }

  lemma CoveredIff(rows: seq<Row>, row: Row)
    ensures Covered(rows, row.metric.labels, row.ts) <==> Has(rows, KeyOf(row))
  {
    if Has(rows, KeyOf(row)) {
      var i :| 0 <= i < |rows| && KeyOf(rows[i]) == KeyOf(row);
      assert rows[i] in rows;
    }
  }

  lemma {:induction false} UnmatchedMembers(rows: seq<Row>, left: seq<Row>, row: Row)
    ensures row in Unmatched(rows, left) <==> row in rows && !Has(left, KeyOf(row))
  {
    hide Has;
    if rows != [] {
      var n := |rows| - 1;
      UnmatchedMembers(rows[..n], left, row);
      assert rows == rows[..n] + [rows[n]];
    }
  }

  /** The row is in branch k, and no branch before it has a row of its labels and time. */
  ghost predicate KeptFrom(b: Branches, texts: seq<string>, k: nat, row: Row) {
    k < |texts| && row in b.rows(texts[k])
    && forall j :: 0 <= j < k ==> !Covered(b.rows(texts[j]), row.metric.labels, row.ts)
  }

  lemma {:induction false} FirstWinsCovers(b: Branches, texts: seq<string>, row: Row)
    ensures Has(FirstWins(b, texts), KeyOf(row)) <==>
      exists j :: 0 <= j < |texts| && Covered(b.rows(texts[j]), row.metric.labels, row.ts)
  {
    hide Has, Unmatched, Covered;
    HasNone(KeyOf(row));
    if texts != [] {
      var n := |texts| - 1;
      var before := FirstWins(b, texts[..n]);
      FirstWinsCovers(b, texts[..n], row);
      HasInBoth(before, Unmatched(b.rows(texts[n]), before), KeyOf(row));
      UnmatchedKeys(b.rows(texts[n]), before, KeyOf(row));
      CoveredIff(b.rows(texts[n]), row);
      if j :| 0 <= j < |texts| && Covered(b.rows(texts[j]), row.metric.labels, row.ts) && j < n {
        assert texts[..n][j] == texts[j];
      }
      if j :| 0 <= j < n && Covered(b.rows(texts[..n][j]), row.metric.labels, row.ts) {
        assert texts[..n][j] == texts[j];
      }
    }
  }

  lemma {:induction false} FirstWinsMembers(b: Branches, texts: seq<string>, row: Row)
    ensures row in FirstWins(b, texts) <==> exists k: nat :: KeptFrom(b, texts, k, row)
  {
    hide Has, Unmatched, Covered;
    if texts != [] {
      var n := |texts| - 1;
      var before := FirstWins(b, texts[..n]);
      FirstWinsMembers(b, texts[..n], row);
      FirstWinsCovers(b, texts[..n], row);
      UnmatchedMembers(b.rows(texts[n]), before, row);
      if k: nat :| KeptFrom(b, texts[..n], k, row) {
        assert KeptFrom(b, texts, k, row);
      }
      if k: nat :| KeptFrom(b, texts, k, row) && k < n {
        assert KeptFrom(b, texts[..n], k, row);
      }
      if row in Unmatched(b.rows(texts[n]), before) {
        assert KeptFrom(b, texts, n, row);
      }
    }
  }

  /** Nested `or`, in any parenthesisation, keeps a row exactly when it is in some branch and no
      branch before that one has a row with the same labels, names aside, at the same time. */
  lemma KeptIff(b: Branches, e: Expr, row: Row)
    ensures row in Nested(b, e) <==> exists k: nat :: KeptFrom(b, Leaves(e), k, row)
  {
    hide KeptFrom;
    NestedIsFirstWins(b, e);
    FirstWinsMembers(b, Leaves(e), row);
  }

  // ---------------------------------------------------------------- the SQL union

  datatype Tagged = Tagged(row: Row, priority: nat)

  function Tag(rows: seq<Row>, priority: nat): (r: seq<Tagged>)
    ensures |r| == |rows|
  {
    seq(|rows|, i requires 0 <= i < |rows| => Tagged(rows[i], priority))
  }

  /** The UNION ALL of the branches, each with its position. */
  function UnionAll(b: Branches, texts: seq<string>): seq<Tagged> {
    if texts == [] then []
    else
      var n := |texts| - 1;
      UnionAll(b, texts[..n]) + Tag(b.rows(texts[n]), n)
  }

  /** Whether a row has the least priority of its partition. */
  predicate Chosen(all: seq<Tagged>, t: Tagged) {
    forall i :: 0 <= i < |all| && KeyOf(all[i].row) == KeyOf(t.row) ==> t.priority <= all[i].priority
  }

  function KeepChosen(all: seq<Tagged>, part: seq<Tagged>): seq<Row> {
    if part == [] then []
    else
      var n := |part| - 1;
      KeepChosen(all, part[..n]) + if Chosen(all, part[n]) then [part[n].row] else []
  }

  lemma {:induction false} KeepChosenOfBoth(all: seq<Tagged>, x: seq<Tagged>, y: seq<Tagged>)
    ensures KeepChosen(all, x + y) == KeepChosen(all, x) + KeepChosen(all, y)
  {
    if y == [] {
      assert x + y == x;
    } else {
      var n := |y| - 1;
      assert (x + y)[..|x| + n] == x + y[..n];
      KeepChosenOfBoth(all, x, y[..n]);
    }
  }

  lemma {:induction false} PrioritiesAreBelow(b: Branches, texts: seq<string>, i: nat)
    requires i < |UnionAll(b, texts)|
    ensures UnionAll(b, texts)[i].priority < |texts|
  {
    var n := |texts| - 1;
    if i < |UnionAll(b, texts[..n])| {
      PrioritiesAreBelow(b, texts[..n], i);
    }
  }

  /** Rows of later branches never displace a row of an earlier one. */
  lemma {:induction false} LaterDoNotMatter(all: seq<Tagged>, later: seq<Tagged>, part: seq<Tagged>)
    requires forall i, j :: 0 <= i < |part| && 0 <= j < |later| ==> part[i].priority <= later[j].priority
    ensures KeepChosen(all + later, part) == KeepChosen(all, part)
  {
    if part != [] {
      var n := |part| - 1;
      LaterDoNotMatter(all, later, part[..n]);
      var t := part[n];
      assert Chosen(all + later, t) <==> Chosen(all, t) by {
        if Chosen(all + later, t) {
          forall i | 0 <= i < |all| && KeyOf(all[i].row) == KeyOf(t.row) ensures t.priority <= all[i].priority {
            assert (all + later)[i] == all[i];
          }
        }
      }
    }
  }

  predicate HasTagged(all: seq<Tagged>, key: Key) {
    exists i :: 0 <= i < |all| && KeyOf(all[i].row) == key
  }

  /** The last branch keeps exactly its unmatched rows. */
  lemma {:induction false} LastBranch(all: seq<Tagged>, rows: seq<Row>, priority: nat, whole: seq<Tagged>,
                                      left: seq<Row>)
    requires forall i :: 0 <= i < |all| ==> all[i].priority < priority
    requires whole == all || (exists more :: whole == all + Tag(more, priority))
    requires forall key :: HasTagged(all, key) <==> Has(left, key)
    ensures KeepChosen(whole, Tag(rows, priority)) == Unmatched(rows, left)
  {
    hide Has, HasTagged;
    if rows != [] {
      var n := |rows| - 1;
      LastBranch(all, rows[..n], priority, whole, left);
      assert Tag(rows, priority)[..n] == Tag(rows[..n], priority);
      ChosenIff(all, Tagged(rows[n], priority), whole);
    }
  }

  lemma ChosenIff(all: seq<Tagged>, t: Tagged, whole: seq<Tagged>)
    requires forall i :: 0 <= i < |all| ==> all[i].priority < t.priority
    requires whole == all || (exists more :: whole == all + Tag(more, t.priority))
    ensures Chosen(whole, t) <==> !HasTagged(all, KeyOf(t.row))
  {
    if i :| 0 <= i < |all| && KeyOf(all[i].row) == KeyOf(t.row) {
      assert whole[i] == all[i];
    }
  }

  lemma {:induction false} TaggedKeys(b: Branches, texts: seq<string>, key: Key)
    ensures HasTagged(UnionAll(b, texts), key) <==> Has(FirstWins(b, texts), key)
  {
    hide Has, Unmatched, HasTagged;
    if texts != [] {
      var n := |texts| - 1;
      TaggedKeys(b, texts[..n], key);
      var before := FirstWins(b, texts[..n]);
      HasInBoth(before, Unmatched(b.rows(texts[n]), before), key);
      UnmatchedKeys(b.rows(texts[n]), before, key);
      TagKeys(UnionAll(b, texts[..n]), b.rows(texts[n]), n, key);
    } else {
      HasNone(key);
      assert !HasTagged([], key) by { NoneTagged(key); }
    }
  }

  lemma NoneTagged(key: Key)
    ensures !HasTagged([], key)
  {
  }

  lemma TagKeys(all: seq<Tagged>, rows: seq<Row>, priority: nat, key: Key)
    ensures HasTagged(all + Tag(rows, priority), key) <==> HasTagged(all, key) || Has(rows, key)
  {
    var whole := all + Tag(rows, priority);
    if i :| 0 <= i < |all| && KeyOf(all[i].row) == key {
      assert KeyOf(whole[i].row) == key;
    }
    if i :| 0 <= i < |rows| && KeyOf(rows[i]) == key {
      assert KeyOf(whole[|all| + i].row) == key;
    }
    if i :| 0 <= i < |whole| && KeyOf(whole[i].row) == key {
      assert i < |all| ==> KeyOf(all[i].row) == key;
      assert i >= |all| ==> KeyOf(rows[i - |all|]) == key;
    }
  }

  /** Keeping the least priority of each partition is letting the first branch win. */
  lemma {:induction false} LeastPriorityIsFirstWins(b: Branches, texts: seq<string>)
    ensures KeepChosen(UnionAll(b, texts), UnionAll(b, texts)) == FirstWins(b, texts)
  {
    hide Has, Unmatched, Chosen, HasTagged;
    if texts != [] {
      var n := |texts| - 1;
      var (all, last) := (UnionAll(b, texts[..n]), Tag(b.rows(texts[n]), n));
      LeastPriorityIsFirstWins(b, texts[..n]);
      forall i | 0 <= i < |all| ensures all[i].priority < n { PrioritiesAreBelow(b, texts[..n], i); }
      LaterDoNotMatter(all, last, all);
      KeepChosenOfBoth(all + last, all, last);
      forall key ensures HasTagged(all, key) <==> Has(FirstWins(b, texts[..n]), key) { TaggedKeys(b, texts[..n], key); }
      LastBranch(all, b.rows(texts[n]), n, all + last, FirstWins(b, texts[..n]));
    }
  }

  /** Main result: for any parenthesisation of any list of branches, repeated ones included, the
      flattened union keeps the rows nested `or` keeps, in the same order. */
  lemma FlattenedIsNested(b: Branches, e: Expr)
    ensures var all := UnionAll(b, Collected([], Leaves(e))); KeepChosen(all, all) == Nested(b, e)
  {
    LeastPriorityIsFirstWins(b, Collected([], Leaves(e)));
    RepeatsAddNothing(b, [], Leaves(e));
    assert [] + Leaves(e) == Leaves(e);
    NestedIsFirstWins(b, e);
  }

  // ---------------------------------------------------------------- the compact union

  datatype Sample = Sample(t: int, v: Option<real>)
  datatype Series = Series(metric: Metric, samples: seq<Sample>)
  datatype Output = Output(metric: Metric, points: seq<Point>)

  function SampleRow(metric: Metric, s: Sample): Row { Row(metric, s.t, s.v) }

  function SeriesRows(metric: Metric, samples: seq<Sample>): seq<Row> {
    if samples == [] then []
    else SeriesRows(metric, samples[..|samples| - 1]) + [SampleRow(metric, samples[|samples| - 1])]
  }

  function MatrixRows(matrix: seq<Series>): seq<Row> {
    if matrix == [] then []
    else
      var last := matrix[|matrix| - 1];
      MatrixRows(matrix[..|matrix| - 1]) + SeriesRows(last.metric, last.samples)
  }

  /** The points emitted for one series: NaN rows hide later branches but are not emitted. */
  function Emitted(rows: seq<Row>, metric: Metric): seq<Point> {
    if rows == [] then []
    else
      var r := rows[|rows| - 1];
      Emitted(rows[..|rows| - 1], metric)
      + if r.metric == metric && r.value.Some? then [Point(r.ts, r.value.value)] else []
  }

  lemma EmittedOfMore(rows: seq<Row>, r: Row, metric: Metric)
    ensures Emitted(rows + [r], metric)
         == Emitted(rows, metric) + if r.metric == metric && r.value.Some? then [Point(r.ts, r.value.value)] else []
  {
    assert (rows + [r])[..|rows|] == rows;
  }

  lemma UnmatchedOfMore(rows: seq<Row>, r: Row, left: seq<Row>)
    ensures Unmatched(rows + [r], left) == Unmatched(rows, left) + if Has(left, KeyOf(r)) then [] else [r]
  {
    assert (rows + [r])[..|rows|] == rows;
  }

  /** Keys of kept rows, in order. */
  function Marks(rows: seq<Row>): (r: seq<Key>)
    ensures |r| == |rows|
  {
    seq(|rows|, i requires 0 <= i < |rows| => KeyOf(rows[i]))
  }

  class CompactUnion {
    var result: seq<Output>
    var byLabels: map<Metric, nat>
    var present: map<int, set<seq<(string, string)>>>
    ghost var rows: seq<Row>   // everything kept so far, NaN rows included

    predicate IsPresent(key: Key)
      reads this`present
    {
      key.ts in present && key.labels in present[key.ts]
    }

    function Points(metric: Metric): seq<Point>
      requires Indexed()
      reads this`result, this`byLabels
    {
      if metric in byLabels then result[byLabels[metric]].points else []
    }

    ghost predicate Indexed()
      reads this`result, this`byLabels
    {
      (forall m :: m in byLabels ==> byLabels[m] < |result| && result[byLabels[m]].metric == m)
      && (forall i :: 0 <= i < |result| ==> result[i].metric in byLabels && byLabels[result[i].metric] == i)
    }

    /** The output is the emitted rows, series by series; no series is empty. */
    ghost predicate Holds(kept: seq<Row>)
      reads this`result, this`byLabels
    {
      Indexed() && (forall m :: Points(m) == Emitted(kept, m)) && (forall m :: m in byLabels ==> Points(m) != [])
    }

    /** The present marks are the keys of the rows. */
    ghost predicate Marked(rows: seq<Row>)
      reads this`present
    {
      forall key :: IsPresent(key) <==> Has(rows, key)
    }

    ghost predicate Valid()
      reads this
    {
      Holds(rows) && Marked(rows)
    }

    constructor ()
      ensures Valid() && rows == []
    {
      result, byLabels, present, rows := [], map[], map[], [];
    }

    method Emit(metric: Metric, p: Point)
      requires Indexed()
      modifies this`result, this`byLabels
      ensures Indexed()
      ensures forall m :: Points(m) == old(Points(m)) + if m == metric then [p] else []
      ensures forall m :: m in byLabels <==> m in old(byLabels) || m == metric
    {
      if metric !in byLabels {
        byLabels := byLabels[metric := |result|];
        result := result + [Output(metric, [])];
      }
      var index := byLabels[metric];
      assert Indexed() && Points(metric) == old(Points(metric));
      result := result[index := Output(metric, result[index].points + [p])];
      assert forall m :: m in byLabels && m != metric ==> byLabels[m] != index;
    }

    method EmitRow(metric: Metric, s: Sample, ghost kept: seq<Row>)
      requires Holds(kept)
      modifies this`result, this`byLabels
      ensures Holds(kept + [SampleRow(metric, s)])
    {
      hide Emitted, Indexed;
      forall m ensures Emitted(kept + [SampleRow(metric, s)], m)
                    == Emitted(kept, m) + if m == metric && s.v.Some? then [Point(s.t, s.v.value)] else [] {
        EmittedOfMore(kept, SampleRow(metric, s), m);
      }
      if s.v.Some? {
        Emit(metric, Point(s.t, s.v.value));
      }
    }

    /** One series of a branch: points at keys an earlier branch has are skipped, the others are
        marked, and emitted unless they are NaN. */
    method AddSeries(series: Series, marks: seq<Key>, ghost kept: seq<Row>)
      returns (more: seq<Key>, ghost now: seq<Row>)
      requires Holds(rows + kept) && Marked(rows) && marks == Marks(kept)
      modifies this`result, this`byLabels
      ensures now == kept + Unmatched(SeriesRows(series.metric, series.samples), rows)
      ensures Holds(rows + now) && more == Marks(now)
    {
      hide Has, Unmatched, Holds, Emitted, Indexed;
      UnmatchedEmpty(rows);
      more, now := marks, kept;
      assert kept + [] == kept;
      for i := 0 to |series.samples|
        invariant now == kept + Unmatched(SeriesRows(series.metric, series.samples[..i]), rows)
        invariant Holds(rows + now) && more == Marks(now)
      {
        var s := series.samples[i];
        ghost var r := SampleRow(series.metric, s);
        assert series.samples[..i + 1][..i] == series.samples[..i];
        UnmatchedOfMore(SeriesRows(series.metric, series.samples[..i]), r, rows);
        assert IsPresent(KeyOf(r)) <==> Has(rows, KeyOf(r));
        if IsPresent(Key(series.metric.labels, s.t)) {
          continue;
        }
        more := more + [Key(series.metric.labels, s.t)];
        assert rows + (now + [r]) == rows + now + [r];
        EmitRow(series.metric, s, rows + now);
        now := now + [r];
      }
      assert series.samples[..|series.samples|] == series.samples;
    }

    /** Adding a branch is one `or`: the rows kept are those of the union so far and the
        unmatched rows of the branch. */
    method Add(matrix: seq<Series>)
      requires Valid()
      modifies this
      ensures Valid() && rows == old(rows) + Unmatched(MatrixRows(matrix), old(rows))
    {
      hide Has, Unmatched, Holds, Emitted, Indexed, SeriesRows, Marked, IsPresent;
      var marks: seq<Key> := [];
      ghost var kept: seq<Row> := [];
      UnmatchedEmpty(rows);
      assert rows + [] == rows;
      for i := 0 to |matrix|
        invariant rows == old(rows) && Holds(rows + kept) && Marked(rows) && marks == Marks(kept)
        invariant kept == Unmatched(MatrixRows(matrix[..i]), rows)
      {
        assert matrix[..i + 1][..i] == matrix[..i];
        UnmatchedOfBoth(MatrixRows(matrix[..i]), SeriesRows(matrix[i].metric, matrix[i].samples), rows);
        marks, kept := AddSeries(matrix[i], marks, kept);
      }
      assert matrix[..|matrix|] == matrix;
      MarkAll(marks, rows, kept);
      rows := rows + kept;
    }

    method MarkAll(marks: seq<Key>, ghost before: seq<Row>, ghost kept: seq<Row>)
      requires marks == Marks(kept) && Marked(before)
      modifies this`present
      ensures Marked(before + kept)
    {
      hide Has;
      assert before + kept[..0] == before;
      for i := 0 to |marks|
        invariant Marked(before + kept[..i])
      {
        var m := marks[i];
        ghost var was := before + kept[..i];
        assert before + kept[..i + 1] == was + [kept[i]];
        label now:
        present := present[m.ts := (if m.ts in present then present[m.ts] else {}) + {m.labels}];
        forall key ensures IsPresent(key) <==> Has(was + [kept[i]], key) {
          assert old@now(IsPresent(key)) <==> Has(was, key);
          HasInBoth(was, [kept[i]], key);
          HasOne(kept[i], key);
        }
      }
      assert kept[..|marks|] == kept;
    }
  }

  /** Main result for the compact union: feeding it the branches of a union in order leaves, for
      every series, exactly the non-NaN points that nested `or` keeps. */
  method UnionOf(b: Branches, e: Expr, matrices: seq<seq<Series>>) returns (union: CompactUnion)
    requires |matrices| == |Leaves(e)|
    requires forall i :: 0 <= i < |matrices| ==> MatrixRows(matrices[i]) == b.rows(Leaves(e)[i])
    ensures fresh(union) && union.Valid() && union.rows == Nested(b, e)
    ensures forall m :: union.Points(m) == Emitted(Nested(b, e), m)
  {
    union := new CompactUnion();
    for i := 0 to |matrices|
      invariant fresh(union) && union.Valid() && union.rows == FirstWins(b, Leaves(e)[..i])
    {
      assert Leaves(e)[..i + 1][..i] == Leaves(e)[..i];
      union.Add(matrices[i]);
    }
    assert Leaves(e)[..|matrices|] == Leaves(e);
    NestedIsFirstWins(b, e);
  }
}
