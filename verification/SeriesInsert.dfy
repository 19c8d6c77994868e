/** Registering the new series of concurrent remote-write requests: a shared cache, a table,
    and an insertion that checks before and after taking a lock. Requests of one process
    interleave at every read and write of shared state. */
module SeriesInsert {

  type Id = nat

  /** Both are present in a server; either may be missing. */
  datatype Config = Config(caching: bool, locking: bool)

  /** Where a request stands. The look-up runs twice; `second` marks the run under the lock. */
  datatype Phase =
    | Filter(second: bool)
    | Query(second: bool)
    | Learn(second: bool, known: set<Id>)
    | Drop(second: bool, known: set<Id>)
    | Acquire
    | Encode
    | Insert
    | Remember
    | Succeeded
    | Failed

  /** ids are the series of the batch, one record each; rows are those still thought new. */
  datatype Request = Request(ids: seq<Id>, rows: seq<Id>, phase: Phase)

  /** The table is a log of inserted rows, so a double insertion would show. */
  datatype State = State(table: seq<Id>, cache: set<Id>, holder: int, requests: seq<Request>)

  /** The choices of the environment: whether a call fails, and what a failed insertion has
      written before it failed. */
  datatype Event = Step | Fail(written: seq<Id>)

  const NOBODY := -1

  function Without(rows: seq<Id>, known: set<Id>): seq<Id> {
    if rows == [] then []
    else Without(rows[..|rows| - 1], known) + if rows[|rows| - 1] in known then [] else [rows[|rows| - 1]]
  }

  function Elements(rows: seq<Id>): set<Id> { set r | r in rows }

  ghost predicate Distinct(rows: seq<Id>) { forall i, j :: 0 <= i < j < |rows| ==> rows[i] != rows[j] }

  lemma {:induction false} WithoutIs(rows: seq<Id>, known: set<Id>)
    ensures Elements(Without(rows, known)) == Elements(rows) - known
    ensures Distinct(rows) ==> Distinct(Without(rows, known))
  {
    if rows != [] {
      var n := |rows| - 1;
      WithoutIs(rows[..n], known);
      assert Elements(rows) == Elements(rows[..n]) + {rows[n]} by { assert rows == rows[..n] + [rows[n]]; }
      var rest := Without(rows[..n], known);
      if rows[n] in known {
        assert Elements(rows) - known == Elements(rows[..n]) - known;
        assert Without(rows, known) == rest;
      } else {
        assert Elements(rest + [rows[n]]) == Elements(rest) + {rows[n]};
      }
      if Distinct(rows) {
        forall i | 0 <= i < |rest| ensures rest[i] != rows[n] {
          assert rest[i] in Elements(rest);
        }
      }
    }
  }

  /** The in-place filters keep the rows that are not known, in order, at the front. */
  method FilterInPlace(rows: array<Id>, known: set<Id>) returns (n: nat)
    modifies rows
    ensures n <= rows.Length && rows[..n] == Without(old(rows[..]), known)
  {
    ghost var before := rows[..];
    n := 0;
    for i := 0 to rows.Length
      invariant n <= i && rows[..n] == Without(before[..i], known) && rows[i..] == before[i..]
    {
      var row := rows[i];
      assert row == before[i] && before[..i + 1][..i] == before[..i];
      if row !in known {
        rows[n] := row;
        n := n + 1;
        assert rows[..n] == rows[..n - 1] + [rows[n - 1]];
      }
      assert rows[i + 1..] == before[i + 1..];
    }
    assert before[..rows.Length] == before;
  }

  // ---------------------------------------------------------------- steps

  predicate CanStep(c: Config, s: State, i: nat) {
    i < |s.requests|
    && match s.requests[i].phase
       case Succeeded => false
       case Failed => false
       case Acquire => !c.locking || s.holder == NOBODY
       case _ => true
  }

  /** Only calls to the database and the label encoding fail. */
  predicate CanFail(s: State, i: nat, written: seq<Id>) {
    i < |s.requests|
    && match s.requests[i].phase
       case Query(_) => written == []
       case Encode => written == []
       case Insert => Elements(written) <= Elements(s.requests[i].rows) && forall j, k :: 0 <= j < k < |written| ==>
           written[j] != written[k]
       case _ => false
  }

  predicate Enabled(c: Config, s: State, i: nat, e: Event) {
    match e
    case Step => CanStep(c, s, i)
    case Fail(written) => CanFail(s, i, written)
  }

  function Put(s: State, i: nat, rows: seq<Id>, phase: Phase): State
    requires i < |s.requests|
  {
    s.(requests := s.requests[i := s.requests[i].(rows := rows, phase := phase)])
  }

  /** A request ends; its lock, if it has it, is released by the deferred unlock. */
  function End(s: State, i: nat, phase: Phase): State
    requires i < |s.requests|
  {
    var r := s.requests[i];
    var t := Put(s, i, r.rows, phase);
    if s.holder == i then t.(holder := NOBODY) else t
  }

  /** After a filter: nothing left ends the request, otherwise it goes on. */
  function Filtered(s: State, i: nat, rows: seq<Id>, next: Phase): State
    requires i < |s.requests|
  {
    if rows == [] then End(Put(s, i, rows, s.requests[i].phase), i, Succeeded) else Put(s, i, rows, next)
  }

  function Known(table: seq<Id>, rows: seq<Id>): set<Id> { Elements(rows) * Elements(table) }

  /** The rows left after a look-up. That all of them are known is decided by counting. */
  function NotKnown(rows: seq<Id>, known: set<Id>): seq<Id> {
    if known == {} then rows else if |known| == |rows| then [] else Without(rows, known)
  }

  function Advance(c: Config, s: State, i: nat): State
    requires CanStep(c, s, i)
  {
    var r := s.requests[i];
    match r.phase
    case Filter(second) => Filtered(s, i, if c.caching then Without(r.rows, s.cache) else r.rows, Query(second))
    case Query(second) => Put(s, i, r.rows, Learn(second, Known(s.table, r.rows)))
    case Learn(second, known) =>
      Put(if c.caching then s.(cache := s.cache + known) else s, i, r.rows, Drop(second, known))
    case Drop(second, known) => Filtered(s, i, NotKnown(r.rows, known), if second then Encode else Acquire)
    case Acquire => Put(if c.locking then s.(holder := i) else s, i, r.rows, Filter(true))
    case Encode => Put(s, i, r.rows, Insert)
    case Insert => Put(s.(table := s.table + r.rows), i, r.rows, Remember)
    case Remember => End(if c.caching then s.(cache := s.cache + Elements(r.rows)) else s, i, Succeeded)
  }

  function Apply(c: Config, s: State, i: nat, e: Event): State
    requires Enabled(c, s, i, e)
  {
    match e
    case Step => Advance(c, s, i)
    case Fail(written) => End(s.(table := s.table + written), i, Failed)
  }

  /** Every request starts with the first filter over all its ids. */
  ghost predicate Initial(s: State) {
    Distinct(s.table) && s.cache == {} && s.holder == NOBODY
    && forall i :: 0 <= i < |s.requests| ==>
         Distinct(s.requests[i].ids) && s.requests[i].rows == s.requests[i].ids && s.requests[i].phase == Filter(false)
  }

  // ---------------------------------------------------------------- invariant

  predicate Locked(p: Phase) {
    match p
    case Filter(second) => second
    case Query(second) => second
    case Learn(second, _) => second
    case Drop(second, _) => second
    case Encode => true
    case Insert => true
    case Remember => true
    case _ => false
  }

  /** What is settled for one request: dropped ids are in the table, and under the lock its
      knowledge of the table is complete. */
  ghost predicate RequestOk(c: Config, s: State, r: Request) {
    Distinct(r.rows) && Elements(r.rows) <= Elements(r.ids)
    && Elements(r.ids) - Elements(r.rows) <= Elements(s.table)
    && match r.phase
       case Learn(second, known) =>
         known <= Known(s.table, r.rows) && (second && c.locking ==> known == Known(s.table, r.rows))
       case Drop(second, known) =>
         known <= Known(s.table, r.rows) && (second && c.locking ==> known == Known(s.table, r.rows))
       case Encode => c.locking ==> Known(s.table, r.rows) == {}
       case Insert => c.locking ==> Known(s.table, r.rows) == {}
       case Remember => Elements(r.rows) <= Elements(s.table)
       case Succeeded => Elements(r.ids) <= Elements(s.table)
       case _ => true
  }

  ghost predicate Inv(c: Config, s: State) {
    s.cache <= Elements(s.table)
    && (c.locking ==> Distinct(s.table))
    && (s.holder == NOBODY || 0 <= s.holder < |s.requests|)
    && (forall i :: 0 <= i < |s.requests| ==> RequestOk(c, s, s.requests[i]))
    && (c.locking ==> forall i :: 0 <= i < |s.requests| ==> (Locked(s.requests[i].phase) <==> s.holder == i))
    && (!c.locking ==> s.holder == NOBODY)
  }

  lemma InitialInv(c: Config, s: State)
    requires Initial(s)
    ensures Inv(c, s)
  {
  }

  lemma AllKnown(rows: seq<Id>, known: set<Id>)
    requires Distinct(rows) && known <= Elements(rows) && |known| == |rows|
    ensures known == Elements(rows)
  {
    DistinctSize(rows);
    assert Elements(rows) == known + (Elements(rows) - known);
  }

  lemma {:induction false} DistinctSize(rows: seq<Id>)
    requires Distinct(rows)
    ensures |Elements(rows)| == |rows|
  {
    if rows != [] {
      var n := |rows| - 1;
      DistinctSize(rows[..n]);
      assert Elements(rows) == Elements(rows[..n]) + {rows[n]} by { assert rows == rows[..n] + [rows[n]]; }
      assert rows[n] !in Elements(rows[..n]);
    }
  }

  /** A request that does not move keeps what is settled while the table grows without its
      rows, or while nothing it relies on under the lock can change. */
  lemma OthersKeep(c: Config, s: State, t: State, r: Request)
    requires RequestOk(c, s, r) && Elements(s.table) <= Elements(t.table)
    requires c.locking && Locked(r.phase) ==> Elements(t.table) == Elements(s.table)
    ensures RequestOk(c, t, r)
  {
  }

  /** Counting is right because the rows of a batch are distinct. */
  lemma NotKnownIs(rows: seq<Id>, known: set<Id>)
    requires Distinct(rows) && known <= Elements(rows)
    ensures Elements(NotKnown(rows, known)) == Elements(rows) - known && Distinct(NotKnown(rows, known))
  {
    WithoutIs(rows, known);
    if |known| == |rows| {
      AllKnown(rows, known);
    }
  }

  lemma FilteredRequest(c: Config, s: State, i: nat, rows: seq<Id>, next: Phase)
    requires i < |s.requests| && RequestOk(c, s, s.requests[i])
    requires Distinct(rows) && Elements(rows) <= Elements(s.requests[i].rows)
    requires Elements(s.requests[i].rows) - Elements(rows) <= Elements(s.table)
    requires next.Query? || next.Acquire? || (next.Encode? && (c.locking ==> Known(s.table, rows) == {}))
    ensures RequestOk(c, Filtered(s, i, rows, next), Filtered(s, i, rows, next).requests[i])
  {
  }

  /** One step of one request keeps the request itself in order. */
  lemma AdvanceKeepsRequest(c: Config, s: State, i: nat)
    requires Inv(c, s) && CanStep(c, s, i)
    ensures RequestOk(c, Advance(c, s, i), Advance(c, s, i).requests[i])
  {
    hide Distinct, Without, NotKnown;
    var r := s.requests[i];
    assert RequestOk(c, s, r);
    match r.phase
    case Filter(second) =>
      WithoutIs(r.rows, s.cache);
      FilteredRequest(c, s, i, if c.caching then Without(r.rows, s.cache) else r.rows, Query(second));
    case Query(_) =>
    case Learn(_, _) =>
    case Drop(second, known) =>
      NotKnownIs(r.rows, known);
      var rest := NotKnown(r.rows, known);
      assert second && c.locking ==> Known(s.table, rest) == {};
      FilteredRequest(c, s, i, rest, if second then Encode else Acquire);
    case Acquire =>
    case Encode =>
    case Insert => ElementsAdd(s.table, r.rows);
    case Remember =>
  }

  lemma ElementsAdd(a: seq<Id>, b: seq<Id>)
    ensures Elements(a + b) == Elements(a) + Elements(b)
  {
  }

  lemma DistinctAdd(a: seq<Id>, b: seq<Id>)
    requires Distinct(a) && Distinct(b) && Known(a, b) == {}
    ensures Distinct(a + b)
  {
    forall i, j | 0 <= i < |a| && 0 <= j < |b| ensures a[i] != b[j] {
      assert a[i] in Elements(a) && b[j] in Elements(b);
      assert b[j] !in Known(a, b);
    }
  }

  /** What a step does to the shared state: the cache stays inside the table, and only the
      request that holds the lock adds rows, none of which is there yet. */
  lemma AdvanceShared(c: Config, s: State, i: nat)
    requires Inv(c, s) && CanStep(c, s, i)
    ensures var t := Advance(c, s, i);
      t.cache <= Elements(t.table) && Elements(s.table) <= Elements(t.table)
      && (c.locking ==> Distinct(t.table))
      && (c.locking && s.holder != i ==> t.table == s.table)
      && |t.requests| == |s.requests|
          && (forall k :: 0 <= k < |s.requests| && k != i ==> t.requests[k] == s.requests[k])
  {
    hide Without;
    var r := s.requests[i];
    assert RequestOk(c, s, r);
    ElementsAdd(s.table, r.rows);
    if r.phase.Insert? && c.locking {
      DistinctAdd(s.table, r.rows);
    }
  }

  lemma AdvanceLock(c: Config, s: State, i: nat)
    requires Inv(c, s) && CanStep(c, s, i)
    ensures var t := Advance(c, s, i);
      (t.holder == NOBODY || 0 <= t.holder < |t.requests|) && |t.requests| == |s.requests|
      && (c.locking ==> forall k :: 0 <= k < |t.requests| ==> (Locked(t.requests[k].phase) <==> t.holder == k))
      && (!c.locking ==> t.holder == NOBODY)
  {
    hide Without, RequestOk, Distinct;
  }

  lemma StepKeepsInv(c: Config, s: State, i: nat)
    requires Inv(c, s) && CanStep(c, s, i)
    ensures Inv(c, Advance(c, s, i))
  {
    hide Advance, RequestOk, Distinct;
    var t := Advance(c, s, i);
    AdvanceKeepsRequest(c, s, i);
    AdvanceShared(c, s, i);
    AdvanceLock(c, s, i);
    forall k | 0 <= k < |t.requests| && k != i ensures RequestOk(c, t, t.requests[k]) {
      OthersKeep(c, s, t, s.requests[k]);
    }
  }

  lemma FailKeepsInv(c: Config, s: State, i: nat, written: seq<Id>)
    requires Inv(c, s) && CanFail(s, i, written)
    ensures Inv(c, Apply(c, s, i, Fail(written)))
  {
    hide RequestOk;
    var t := Apply(c, s, i, Fail(written));
    ElementsAdd(s.table, written);
    assert RequestOk(c, s, s.requests[i]);
    FailedRequest(c, s, t, i, written);
    if !s.requests[i].phase.Insert? {
      assert s.table + written == s.table;
    }
    forall k | 0 <= k < |t.requests| && k != i ensures RequestOk(c, t, t.requests[k]) {
      OthersKeep(c, s, t, s.requests[k]);
    }
  }

  lemma FailedRequest(c: Config, s: State, t: State, i: nat, written: seq<Id>)
    requires i < |s.requests| && RequestOk(c, s, s.requests[i]) && CanFail(s, i, written)
    requires t == Apply(c, s, i, Fail(written)) && (c.locking ==> Distinct(s.table))
    ensures RequestOk(c, t, t.requests[i])
    ensures c.locking ==> Distinct(t.table)
  {
    ElementsAdd(s.table, written);
    if c.locking && s.requests[i].phase.Insert? {
      assert Known(s.table, written) <= Known(s.table, s.requests[i].rows);
      DistinctAdd(s.table, written);
    } else if !s.requests[i].phase.Insert? {
      assert s.table + written == s.table;
    }
  }

  // ---------------------------------------------------------------- runs

  /** A run: which request moves, and how, step by step. */
  ghost predicate Run(c: Config, s: State, moves: seq<(nat, Event)>, t: State)
    decreases |moves|
  {
    if moves == [] then s == t
    else Enabled(c, s, moves[0].0, moves[0].1) && Run(c, Apply(c, s, moves[0].0, moves[0].1), moves[1..], t)
  }

  lemma {:induction false} RunKeepsInv(c: Config, s: State, moves: seq<(nat, Event)>, t: State)
    requires Inv(c, s) && Run(c, s, moves, t)
    ensures Inv(c, t)
    decreases |moves|
  {
    hide Inv;
    if moves != [] {
      var (i, e) := moves[0];
      if e.Step? {
        StepKeepsInv(c, s, i);
      } else {
        FailKeepsInv(c, s, i, e.written);
      }
      RunKeepsInv(c, Apply(c, s, moves[0].0, moves[0].1), moves[1..], t);
    }
  }

  /** Main result, for every interleaving of every set of requests: the cache never runs ahead
      of the table, no series is inserted twice when the lock is there, even by insertions that
      fail halfway, and a request that succeeds has all its series in the table. */
  lemma EveryRunIsSafe(c: Config, s: State, moves: seq<(nat, Event)>, t: State)
    requires Initial(s) && Run(c, s, moves, t)
    ensures t.cache <= Elements(t.table)
    ensures c.locking ==> Distinct(t.table)
    ensures forall i :: 0 <= i < |t.requests| && t.requests[i].phase.Succeeded? ==>
      Elements(t.requests[i].ids) <= Elements(t.table)
  {
    InitialInv(c, s);
    RunKeepsInv(c, s, moves, t);
    forall i | 0 <= i < |t.requests| && t.requests[i].phase.Succeeded?
      ensures Elements(t.requests[i].ids) <= Elements(t.table)
    {
      assert RequestOk(c, t, t.requests[i]);
    }
  }

  // ---------------------------------------------------------------- progress

  predicate Finished(p: Phase) { p.Succeeded? || p.Failed? }

  /** No interleaving deadlocks: while some request is unfinished, some request can move. */
  lemma SomeoneCanMove(c: Config, s: State, i: nat)
    requires Inv(c, s) && i < |s.requests| && !Finished(s.requests[i].phase)
    ensures exists k: nat :: k < |s.requests| && CanStep(c, s, k)
  {
    if s.holder == NOBODY {
      assert CanStep(c, s, i);
    } else {
      assert CanStep(c, s, s.holder);
    }
  }

  function Rank(p: Phase): nat {
    match p
    case Filter(second) => if second then 7 else 12
    case Query(second) => if second then 6 else 11
    case Learn(second, _) => if second then 5 else 10
    case Drop(second, _) => if second then 4 else 9
    case Acquire => 8
    case Encode => 3
    case Insert => 2
    case Remember => 1
    case _ => 0
  }

  /** Every move brings its request nearer to the end, so every run stops. */
  lemma MovesGoForward(c: Config, s: State, i: nat, e: Event)
    requires Enabled(c, s, i, e)
    ensures var t := Apply(c, s, i, e);
      |t.requests| == |s.requests| && Rank(t.requests[i].phase) < Rank(s.requests[i].phase)
      && forall k :: 0 <= k < |s.requests| && k != i ==> t.requests[k] == s.requests[k]
  {
    hide Without;
  }

  // ---------------------------------------------------------------- what a request ends with

  /** The environment made a call of request i fail. */
  ghost predicate Hit(moves: seq<(nat, Event)>, i: nat) {
    exists k :: 0 <= k < |moves| && moves[k].0 == i && moves[k].1.Fail?
  }

  lemma {:induction false} RunFails(c: Config, s: State, moves: seq<(nat, Event)>, t: State, i: nat)
    requires Run(c, s, moves, t) && i < |s.requests|
    ensures |t.requests| == |s.requests|
    ensures t.requests[i].phase.Failed? <==> s.requests[i].phase.Failed? || Hit(moves, i)
    decreases |moves|
  {
    if moves != [] {
      var (m, u) := (moves[0], Apply(c, s, moves[0].0, moves[0].1));
      MoveFails(c, s, m.0, m.1, i);
      RunFails(c, u, moves[1..], t, i);
      FirstHit(moves, i);
    }
  }

  lemma MoveFails(c: Config, s: State, j: nat, e: Event, i: nat)
    requires Enabled(c, s, j, e) && i < |s.requests|
    ensures var t := Apply(c, s, j, e);
      |t.requests| == |s.requests|
      && (t.requests[i].phase.Failed? <==> s.requests[i].phase.Failed? || (j == i && e.Fail?))
  {
    hide Without;
  }

  lemma FirstHit(moves: seq<(nat, Event)>, i: nat)
    requires moves != []
    ensures Hit(moves, i) <==> (moves[0].0 == i && moves[0].1.Fail?) || Hit(moves[1..], i)
  {
    if Hit(moves, i) && !(moves[0].0 == i && moves[0].1.Fail?) {
      var k :| 0 <= k < |moves| && moves[k].0 == i && moves[k].1.Fail?;
      assert moves[1..][k - 1] == moves[k];
    }
    if Hit(moves[1..], i) {
      var k :| 0 <= k < |moves[1..]| && moves[1..][k].0 == i && moves[1..][k].1.Fail?;
      assert moves[k + 1] == moves[1..][k];
    }
  }

  /** A request fails only when one of its own calls does: otherwise, once it is done, it has
      succeeded. */
  lemma FailsIff(c: Config, s: State, moves: seq<(nat, Event)>, t: State, i: nat)
    requires Initial(s) && Run(c, s, moves, t) && i < |t.requests|
    ensures t.requests[i].phase.Failed? <==> Hit(moves, i)
    ensures Finished(t.requests[i].phase) && !Hit(moves, i) ==> t.requests[i].phase.Succeeded?
  {
    SameRequests(c, s, moves, t);
    RunFails(c, s, moves, t, i);
  }

  lemma {:induction false} SameRequests(c: Config, s: State, moves: seq<(nat, Event)>, t: State)
    requires Run(c, s, moves, t)
    ensures |t.requests| == |s.requests|
    ensures forall i :: 0 <= i < |s.requests| ==> t.requests[i].ids == s.requests[i].ids
    decreases |moves|
  {
    if moves != [] {
      MoveKeepsIds(c, s, moves[0].0, moves[0].1);
      SameRequests(c, Apply(c, s, moves[0].0, moves[0].1), moves[1..], t);
    }
  }

  lemma MoveKeepsIds(c: Config, s: State, i: nat, e: Event)
    requires Enabled(c, s, i, e)
    ensures var t := Apply(c, s, i, e);
      |t.requests| == |s.requests| && forall k :: 0 <= k < |s.requests| ==> t.requests[k].ids == s.requests[k].ids
  {
    hide Without;
  }

  // ---------------------------------------------------------------- what the cache and the table hold

  /** With the cache, the ids a request has dropped are cached. */
  ghost predicate DroppedAreCached(s: State, r: Request) {
    Elements(r.rows) <= Elements(r.ids) && Distinct(r.rows)
    && Elements(r.ids) - Elements(r.rows) <= s.cache
    && match r.phase
       case Learn(_, known) => known <= Elements(r.rows)
       case Drop(_, known) => known <= Elements(r.rows) && known <= s.cache
       case Succeeded => Elements(r.ids) <= s.cache
       case _ => true
  }

  ghost predicate Caches(s: State) {
    forall i :: 0 <= i < |s.requests| ==> DroppedAreCached(s, s.requests[i])
  }

  lemma FilteredIsCached(s: State, i: nat, rest: seq<Id>, next: Phase)
    requires i < |s.requests| && DroppedAreCached(s, s.requests[i]) && (next.Query? || next.Acquire? || next.Encode?)
    requires Distinct(rest) && Elements(rest) <= Elements(s.requests[i].rows)
    requires Elements(s.requests[i].rows) - Elements(rest) <= s.cache
    ensures DroppedAreCached(Filtered(s, i, rest, next), Filtered(s, i, rest, next).requests[i])
  {
    NoElements(rest);
  }

  lemma AdvanceCachesOwn(c: Config, s: State, i: nat)
    requires c.caching && CanStep(c, s, i) && DroppedAreCached(s, s.requests[i])
    ensures DroppedAreCached(Advance(c, s, i), Advance(c, s, i).requests[i])
    ensures s.cache <= Advance(c, s, i).cache
  {
    hide Distinct, Without, NotKnown;
    var r := s.requests[i];
    match r.phase
    case Filter(second) =>
      WithoutIs(r.rows, s.cache);
      FilteredIsCached(s, i, Without(r.rows, s.cache), Query(second));
    case Drop(second, known) =>
      NotKnownIs(r.rows, known);
      FilteredIsCached(s, i, NotKnown(r.rows, known), if second then Encode else Acquire);
    case _ =>
  }

  lemma MoveCaches(c: Config, s: State, i: nat, e: Event)
    requires c.caching && Caches(s) && Enabled(c, s, i, e)
    ensures Caches(Apply(c, s, i, e))
  {
    hide Distinct, Without, NotKnown, DroppedAreCached;
    var t := Apply(c, s, i, e);
    MovesGoForward(c, s, i, e);
    if e.Step? {
      AdvanceCachesOwn(c, s, i);
    } else {
      FailedIsCached(s, t, i);
    }
    forall k | 0 <= k < |t.requests| && k != i ensures DroppedAreCached(t, t.requests[k]) {
      MoreCache(s, t, s.requests[k]);
    }
  }

  lemma FailedIsCached(s: State, t: State, i: nat)
    requires i < |s.requests| && i < |t.requests| && DroppedAreCached(s, s.requests[i]) && t.cache == s.cache
    requires t.requests[i] == s.requests[i].(phase := Failed)
    ensures DroppedAreCached(t, t.requests[i])
  {
  }

  lemma MoreCache(s: State, t: State, r: Request)
    requires DroppedAreCached(s, r) && s.cache <= t.cache
    ensures DroppedAreCached(t, r)
  {
  }

  lemma {:induction false} RunCaches(c: Config, s: State, moves: seq<(nat, Event)>, t: State)
    requires c.caching && Caches(s) && Run(c, s, moves, t)
    ensures Caches(t)
    decreases |moves|
  {
    hide Caches, Apply;
    if moves != [] {
      MoveCaches(c, s, moves[0].0, moves[0].1);
      RunCaches(c, Apply(c, s, moves[0].0, moves[0].1), moves[1..], t);
    }
  }

  /** With the cache, all series of a request that succeeded are cached, however they came into
      the table, and the next request for cached series succeeds at its first step without a
      query. */
  lemma SuccessIsCached(c: Config, s: State, moves: seq<(nat, Event)>, t: State, i: nat, j: nat)
    requires c.caching && Initial(s) && Run(c, s, moves, t) && i < |t.requests| && j < |t.requests|
    requires t.requests[i].phase.Succeeded?
    ensures Elements(t.requests[i].ids) <= t.cache
    ensures t.requests[j].phase == Filter(false) && Elements(t.requests[j].rows) <= Elements(t.requests[i].ids) ==>
      CanStep(c, t, j)
      && Advance(c, t, j).requests[j].phase == Succeeded && Advance(c, t, j).table == t.table
  {
    hide Without, Run;
    RunCaches(c, s, moves, t);
    assert DroppedAreCached(t, t.requests[i]);
    WithoutIs(t.requests[j].rows, t.cache);
    if Elements(t.requests[j].rows) <= t.cache {
      NoElements(Without(t.requests[j].rows, t.cache));
    }
  }

  lemma NoElements(rows: seq<Id>)
    ensures Elements(rows) == {} <==> rows == []
  {
    if rows != [] {
      assert rows[0] in Elements(rows);
    }
  }

  /** Rows in the table were there before or are series of some request. */
  ghost predicate Asked(start: State, s: State, id: Id) {
    id in start.table || exists i :: 0 <= i < |s.requests| && id in s.requests[i].ids
  }

  ghost predicate AllAsked(start: State, s: State) {
    (forall i :: 0 <= i < |s.requests| ==> Elements(s.requests[i].rows) <= Elements(s.requests[i].ids))
    && (forall id :: id in s.table ==> Asked(start, s, id))
  }

  lemma MoveAsks(c: Config, start: State, s: State, i: nat, e: Event)
    requires AllAsked(start, s) && Enabled(c, s, i, e)
    ensures AllAsked(start, Apply(c, s, i, e))
  {
    hide Without, Asked, NotKnown;
    var (t, r) := (Apply(c, s, i, e), s.requests[i]);
    MovesGoForward(c, s, i, e);
    MoveKeepsIds(c, s, i, e);
    WithoutIs(r.rows, s.cache);
    if r.phase.Drop? {
      NotKnownPart(r.rows, r.phase.known);
    }
    forall id | Asked(start, s, id) ensures Asked(start, t, id) { StillAsked(start, s, t, id); }
    forall id | id in t.table ensures Asked(start, t, id) {
      if id !in s.table {
        assert id in Elements(r.rows);
        assert id in t.requests[i].ids;
        AskedBy(start, t, id, i);
      }
    }
  }

  lemma NotKnownPart(rows: seq<Id>, known: set<Id>)
    ensures Elements(NotKnown(rows, known)) <= Elements(rows)
  {
    WithoutIs(rows, known);
  }

  lemma StillAsked(start: State, s: State, t: State, id: Id)
    requires Asked(start, s, id) && |t.requests| == |s.requests|
    requires forall k :: 0 <= k < |s.requests| ==> t.requests[k].ids == s.requests[k].ids
    ensures Asked(start, t, id)
  {
    if id !in start.table {
      var i :| 0 <= i < |s.requests| && id in s.requests[i].ids;
      AskedBy(start, t, id, i);
    }
  }

  lemma AskedBy(start: State, s: State, id: Id, i: nat)
    requires i < |s.requests| && id in s.requests[i].ids
    ensures Asked(start, s, id)
  {
  }

  lemma {:induction false} RunAsks(c: Config, start: State, s: State, moves: seq<(nat, Event)>, t: State)
    requires AllAsked(start, s) && Run(c, s, moves, t)
    ensures AllAsked(start, t)
    decreases |moves|
  {
    hide AllAsked, Apply;
    if moves != [] {
      MoveAsks(c, start, s, moves[0].0, moves[0].1);
      RunAsks(c, start, Apply(c, s, moves[0].0, moves[0].1), moves[1..], t);
    }
  }

  /** No run inserts a series nobody asked for. */
  lemma NothingInvented(c: Config, s: State, moves: seq<(nat, Event)>, t: State, id: Id)
    requires Initial(s) && Run(c, s, moves, t) && id in t.table
    ensures id in s.table || exists i :: 0 <= i < |t.requests| && id in t.requests[i].ids
  {
    RunAsks(c, s, s, moves, t);
    assert Asked(s, t, id);
  }
}
