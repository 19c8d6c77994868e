/** The row-level fan-out of LogQL functions that need every value of a window: quantile, first
    and last. Each row, not each bucket, is repeated for the evaluation points that see it. */
module RowFanout {
  import opened Options
  import opened Fanout

  datatype Seen = Seen(row: Row, eval: int)

  function Repeat(r: Row, evals: seq<int>): seq<Seen> {
    if evals == [] then [] else [Seen(r, evals[0])] + Repeat(r, evals[1..])
  }

  /** Every row joined with the fan-out of its bucket. */
  function Spread(p: Plan, rows: seq<Row>): seq<Seen>
    requires p.step > 0
  {
    if rows == [] then []
    else
      var n := |rows| - 1;
      Spread(p, rows[..n]) + Repeat(rows[n], FanOut(p, Bucket(rows[n].ts, p.step)))
  }

  /** The rows of one key and evaluation point, which the outer GROUP BY aggregates. */
  function SeenAt(seen: seq<Seen>, key: string, e: int): seq<Row> {
    if seen == [] then []
    else
      var n := |seen| - 1;
      SeenAt(seen[..n], key, e) + if seen[n].row.key == key && seen[n].eval == e then [seen[n].row] else []
  }

  lemma {:induction false} SeenInBoth(a: seq<Seen>, b: seq<Seen>, key: string, e: int)
    ensures SeenAt(a + b, key, e) == SeenAt(a, key, e) + SeenAt(b, key, e)
  {
    if b == [] {
      assert a + b == a;
    } else {
      var n := |b| - 1;
      assert (a + b)[..|a| + n] == a + b[..n];
      SeenInBoth(a, b[..n], key, e);
    }
  }

  lemma SeenOne(x: Seen, key: string, e: int)
    ensures SeenAt([x], key, e) == if x.row.key == key && x.eval == e then [x.row] else []
  {
    assert [x][..0] == [];
  }

  lemma SeenNothing(key: string, e: int)
    ensures SeenAt([], key, e) == []
  {
  }

  /** A row is repeated at most once for each evaluation point. */
  lemma {:induction false} SeenOnce(p: Plan, r: Row, b: int, k: nat, key: string, e: int)
    requires p.step > 0
    ensures SeenAt(Repeat(r, FanOutFrom(p, b, k)), key, e) ==
            if r.key == key && e in FanOutFrom(p, b, k) then [r] else []
    decreases Repeats(p) - k
  {
    hide Repeats, Passes, First, SeenAt;
    if k < Repeats(p) {
      SeenOnce(p, r, b, k + 1, key, e);
      var now := First(p, b) + k * p.step;
      var rest := FanOutFrom(p, b, k + 1);
      LaterPoints(p, b, k);
      if Passes(p, b, now) {
        assert FanOutFrom(p, b, k) == [now] + rest;
        assert ([now] + rest)[1..] == rest;
        SeenInBoth([Seen(r, now)], Repeat(r, rest), key, e);
        SeenOne(Seen(r, now), key, e);
      } else {
        assert [] + rest == rest;
      }
    } else {
      SeenNothing(key, e);
    }
  }

  function Delivered(p: Plan, key: string, e: int): Row -> bool
    requires p.step > 0
  {
    (r: Row) => r.key == key && e in FanOut(p, Bucket(r.ts, p.step))
  }

  lemma {:induction false} SeenIsDelivered(p: Plan, rows: seq<Row>, key: string, e: int)
    requires p.step > 0
    ensures SeenAt(Spread(p, rows), key, e) == Keep(rows, Delivered(p, key, e))
  {
    hide FanOutFrom, Bucket, SeenAt, Repeat;
    if rows == [] {
      NothingSeen(key, e);
    } else {
      var n := |rows| - 1;
      var b := Bucket(rows[n].ts, p.step);
      SeenIsDelivered(p, rows[..n], key, e);
      SeenInBoth(Spread(p, rows[..n]), Repeat(rows[n], FanOut(p, b)), key, e);
      SeenOnce(p, rows[n], b, 0, key, e);
    }
  }

  lemma NothingSeen(key: string, e: int)
    ensures SeenAt([], key, e) == []
  {
  }

  /** With an aligned start every evaluation point aggregates exactly the rows with a value in
      its window, each once and in the order of the scan, so any aggregation of them is that of
      direct evaluation. */
  lemma SeenIsWindow(p: Plan, rows: seq<Row>, key: string, e: int)
    requires p.Valid() && p.Aligned() && OnGrid(p, e)
    requires forall r :: r in rows ==> Roundable(r.ts, p.step)
    ensures SeenAt(Spread(p, Keep(rows, Fetched(p, true))), key, e)
         == Keep(Window(rows, key, e - p.window, e), HasValue)
  {
    hide FanOut, Bucket, Roundable, SeenAt, Spread, Keep;
    var scanned := Keep(rows, Fetched(p, true));
    SeenIsDelivered(p, scanned, key, e);
    forall r | r in scanned ensures Delivered(p, key, e)(r) == InWindow(key, e - p.window, e)(r) {
      KeptRows(rows, Fetched(p, true), r);
      RowIsDelivered(p, r.ts, e);
    }
    KeepSame(scanned, Delivered(p, key, e), InWindow(key, e - p.window, e));
    FetchKeepsWindow(p, true, rows, key, e);
  }
}
