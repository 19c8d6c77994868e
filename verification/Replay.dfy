/** The replay tool as a protocol: one reader, a bounded channel of batches, a pool of workers
    that post them, and an error channel with room for one error. Every interleaving of their
    steps is a run. */
module Replay {
  import opened Options
  import opened Bits
  import opened ProtoWire

  type Message = seq<Byte>
  type Batch = seq<Message>

  datatype Error = ReadError | PostError(code: nat)

  /** The messages of the file, and whether it ends cleanly after them. */
  datatype Setup = Setup(messages: seq<Message>, clean: bool, batchSize: nat, workers: nat) {
    ghost predicate Valid() { batchSize > 0 && workers > 0 }
    function Capacity(): nat { workers * 2 }
  }

  /** The reader checks for errors, reads, and blocks in sendBatch; `last` marks the final,
      smaller batch. */
  datatype Reader = Checking | Reading | Sending(last: bool) | Returned(error: Option<Error>)

  /** A worker that stopped because a post failed is told apart from one that drained the
      closed channel. */
  datatype Worker = Idle | Posting(batch: Batch) | Counting(batch: Batch) | Exited(failed: bool)

  datatype State = State(
    position: nat,         // messages read
    pending: Batch,        // messages of the payload being filled
    reader: Reader,
    queue: seq<Batch>,     // the channel of batches
    closed: bool,
    errs: Option<Error>,   // the channel of errors
    workers: seq<Worker>,
    posted: seq<Batch>,    // batches the server accepted
    lost: seq<Batch>,      // batches of failed posts, and the batch of a send given up
    rows: nat,             // the row counter
    result: Option<Option<Error>>)

  function Start(p: Setup): State {
    State(0, [], Checking, [], false, None, seq(p.workers, _ => Idle), [], [], 0, None)
  }

  // ---------------------------------------------------------------- steps

  /** Reader steps; Send and GiveUp are the two cases of the select in sendBatch. */
  datatype Event =
    | Check | Read | Send | GiveUp | Close | Finish
    | Take(i: nat) | PostOk(i: nat) | PostFails(i: nat, code: nat) | Count(i: nat) | Exit(i: nat)

  predicate Enabled(p: Setup, s: State, e: Event) {
    s.result.None? &&
    match e
    case Check => s.reader.Checking?
    case Read => s.reader.Reading? && s.position <= |p.messages|
    case Send => s.reader.Sending? && |s.queue| < p.Capacity()
    case GiveUp => s.reader.Sending? && s.errs.Some?
    case Close => s.reader.Returned? && !s.closed
    case Finish => s.closed && s.reader.Returned? && forall i :: 0 <= i < |s.workers| ==> s.workers[i].Exited?
    case Take(i) => i < |s.workers| && s.workers[i].Idle? && s.queue != []
    case PostOk(i) => i < |s.workers| && s.workers[i].Posting?
    case PostFails(i, _) => i < |s.workers| && s.workers[i].Posting?
    case Count(i) => i < |s.workers| && s.workers[i].Counting?
    case Exit(i) => i < |s.workers| && s.workers[i].Idle? && s.queue == [] && s.closed
  }

  function Apply(p: Setup, s: State, e: Event): State
    requires Enabled(p, s, e)
  {
    match e
    case Check =>
      if s.errs.Some? then s.(errs := None, reader := Returned(s.errs)) else s.(reader := Reading)
    case Read =>
      if s.position < |p.messages| then
        var payload := s.pending + [p.messages[s.position]];
        s.(position := s.position + 1, pending := payload,
           reader := if |payload| >= p.batchSize then Sending(false) else Checking)
      else if !p.clean then s.(reader := Returned(Some(ReadError)))
      else if s.pending != [] then s.(reader := Sending(true))
      else s.(reader := Returned(None))
    case Send =>
      s.(queue := s.queue + [s.pending], pending := [],
         reader := if s.reader.last then Returned(None) else Checking)
    case GiveUp => s.(errs := None, reader := Returned(s.errs), lost := s.lost + [s.pending], pending := [])
    case Close => s.(closed := true)
    case Finish => s.(result := Some(if s.errs.Some? then s.errs else s.reader.error))
    case Take(i) => s.(queue := s.queue[1..], workers := s.workers[i := Posting(s.queue[0])])
    case PostOk(i) =>
      var batch := s.workers[i].batch;
      s.(posted := s.posted + [batch], workers := s.workers[i := Counting(batch)])
    case PostFails(i, code) =>
      // The error is dropped when one is already waiting.
      s.(errs := if s.errs.None? then Some(PostError(code)) else s.errs,
         lost := s.lost + [s.workers[i].batch], workers := s.workers[i := Exited(true)])
    case Count(i) => s.(rows := s.rows + |s.workers[i].batch|, workers := s.workers[i := Idle])
    case Exit(i) => s.(workers := s.workers[i := Exited(false)])
  }

  // ---------------------------------------------------------------- counting messages

  function All(batches: seq<Batch>): multiset<Message> {
    if batches == [] then multiset{} else All(batches[..|batches| - 1]) + multiset(batches[|batches| - 1])
  }

  function Size(batches: seq<Batch>): nat {
    if batches == [] then 0 else Size(batches[..|batches| - 1]) + |batches[|batches| - 1]|
  }

  lemma AllOfMore(batches: seq<Batch>, b: Batch)
    ensures All(batches + [b]) == All(batches) + multiset(b)
    ensures Size(batches + [b]) == Size(batches) + |b|
  {
    assert (batches + [b])[..|batches|] == batches;
  }

  lemma {:induction false} AllOfTail(batches: seq<Batch>)
    requires batches != []
    ensures All(batches) == multiset(batches[0]) + All(batches[1..])
  {
    var n := |batches| - 1;
    if n > 0 {
      AllOfTail(batches[..n]);
      assert batches[..n][1..] == batches[1..][..n - 1];
    } else {
      assert batches[..0] == [] && batches[1..] == [];
    }
  }

  lemma {:induction false} SizeIsCount(batches: seq<Batch>)
    ensures Size(batches) == |All(batches)|
  {
    if batches != [] {
      SizeIsCount(batches[..|batches| - 1]);
    }
  }

  function Held(w: Worker): multiset<Message> { if w.Posting? then multiset(w.batch) else multiset{} }
  function Uncounted(w: Worker): nat { if w.Counting? then |w.batch| else 0 }

  function Carried(workers: seq<Worker>): multiset<Message> {
    if workers == [] then multiset{} else Carried(workers[..|workers| - 1]) + Held(workers[|workers| - 1])
  }

  function Owed(workers: seq<Worker>): nat {
    if workers == [] then 0 else Owed(workers[..|workers| - 1]) + Uncounted(workers[|workers| - 1])
  }

  lemma {:induction false} CarriedChanges(workers: seq<Worker>, i: nat, w: Worker)
    requires i < |workers|
    ensures Carried(workers[i := w]) + Held(workers[i]) == Carried(workers) + Held(w)
  {
    hide Held;
    var n := |workers| - 1;
    if i == n {
      assert workers[i := w][..n] == workers[..n];
    } else {
      assert workers[i := w][..n] == workers[..n][i := w];
      CarriedChanges(workers[..n], i, w);
      var (was, now, last) := (Carried(workers[..n]), Carried(workers[..n][i := w]), Held(workers[n]));
      assert now + last + Held(workers[i]) == now + Held(workers[i]) + last;
      assert was + Held(w) + last == was + last + Held(w);
    }
  }

  lemma {:induction false} CountsChange(workers: seq<Worker>, i: nat, w: Worker)
    requires i < |workers|
    ensures Owed(workers[i := w]) + Uncounted(workers[i]) == Owed(workers) + Uncounted(w)
    ensures Effort(workers[i := w]) + Weight(workers[i]) == Effort(workers) + Weight(w)
  {
    hide Uncounted, Weight;
    var n := |workers| - 1;
    if i == n {
      assert workers[i := w][..n] == workers[..n];
    } else {
      assert workers[i := w][..n] == workers[..n][i := w];
      CountsChange(workers[..n], i, w);
    }
  }

  lemma {:induction false} IdleWorkers(workers: seq<Worker>)
    requires forall i :: 0 <= i < |workers| ==> workers[i].Idle? || workers[i].Exited?
    ensures Carried(workers) == multiset{} && Owed(workers) == 0
  {
    if workers != [] {
      IdleWorkers(workers[..|workers| - 1]);
    }
  }

  // ---------------------------------------------------------------- invariant

  /** No message is duplicated or forgotten: what was read is in exactly one place. */
  ghost predicate Conserved(p: Setup, s: State) {
    s.position <= |p.messages|
    && multiset(p.messages[..s.position]) == Places(s)
    && s.rows + Owed(s.workers) == Size(s.posted)
  }

  /** A failure is never forgotten: it waits in the error channel or the reader returned it. */
  ghost predicate Remembered(s: State) {
    (s.lost != [] || exists i :: 0 <= i < |s.workers| && s.workers[i] == Exited(true))
      ==> s.errs.Some? || (s.reader.Returned? && s.reader.error.Some?)
  }

  ghost predicate Ordered(p: Setup, s: State) {
    |s.workers| == p.workers
    && (s.closed ==> s.reader.Returned?)
    && (forall i :: 0 <= i < |s.workers| && s.workers[i] == Exited(false) ==> s.closed && s.queue == [])
    && (s.reader.Sending? && s.reader.last ==> s.position == |p.messages| && p.clean)
    && (s.reader == Returned(None) ==> s.position == |p.messages| && p.clean && s.pending == [])
    && (s.result.Some? ==> s.closed && (forall i :: 0 <= i < |s.workers| ==> s.workers[i].Exited?)
                           && s.result.value == if s.errs.Some? then s.errs else s.reader.error)
  }

  ghost predicate Inv(p: Setup, s: State) { Conserved(p, s) && Remembered(s) && Ordered(p, s) }

  lemma StartInv(p: Setup)
    requires p.Valid()
    ensures Inv(p, Start(p))
  {
    IdleWorkers(Start(p).workers);
  }

  /** Where the messages read so far are. */
  function Places(s: State): multiset<Message> {
    multiset(s.pending) + All(s.queue) + Carried(s.workers) + All(s.posted) + All(s.lost)
  }

  lemma ReadMoves(p: Setup, s: State, t: State)
    requires s.position < |p.messages| && t.position == s.position + 1
    requires t.pending == s.pending + [p.messages[s.position]]
    requires t.queue == s.queue && t.workers == s.workers && t.posted == s.posted && t.lost == s.lost
    requires multiset(p.messages[..s.position]) == Places(s)
    ensures multiset(p.messages[..t.position]) == Places(t)
  {
    hide All, Carried;
    assert p.messages[..t.position] == p.messages[..s.position] + [p.messages[s.position]];
  }

  /** Sending, or giving up a send, only moves the batch. */
  lemma SendMoves(s: State, t: State)
    requires t.pending == [] && t.workers == s.workers && t.posted == s.posted
    requires (t.queue == s.queue + [s.pending] && t.lost == s.lost)
          || (t.queue == s.queue && t.lost == s.lost + [s.pending])
    ensures Places(t) == Places(s)
  {
    hide All, Carried;
    AllOfMore(s.queue, s.pending);
    AllOfMore(s.lost, s.pending);
  }

  lemma ReaderConserves(p: Setup, s: State, e: Event)
    requires Conserved(p, s) && Enabled(p, s, e)
    requires e.Check? || e.Read? || e.Send? || e.GiveUp? || e.Close? || e.Finish?
    ensures Conserved(p, Apply(p, s, e))
  {
    hide Places, Size, Owed;
    var t := Apply(p, s, e);
    if e.Read? && s.position < |p.messages| {
      ReadMoves(p, s, t);
    } else if e.Send? || e.GiveUp? {
      SendMoves(s, t);
    } else {
      StaysPut(s, t);
    }
  }

  lemma StaysPut(s: State, t: State)
    requires t.pending == s.pending && t.queue == s.queue && t.posted == s.posted && t.lost == s.lost
    requires t.workers == s.workers
    ensures Places(t) == Places(s)
  {
    hide All, Carried;
  }

  /** Counting a batch, or leaving the closed channel, moves no message. */
  lemma WorkerStaysPut(s: State, i: nat, w: Worker, t: State)
    requires i < |s.workers| && !s.workers[i].Posting? && !w.Posting?
    requires t.pending == s.pending && t.queue == s.queue && t.posted == s.posted && t.lost == s.lost
    requires t.workers == s.workers[i := w]
    ensures Places(t) == Places(s)
  {
    hide All, Carried;
    CarriedChanges(s.workers, i, w);
    assert Carried(t.workers) + multiset{} == Carried(t.workers);
    assert Carried(s.workers) + multiset{} == Carried(s.workers);
  }

  lemma TakeMoves(s: State, i: nat, t: State)
    requires i < |s.workers| && s.workers[i].Idle? && s.queue != []
    requires t == s.(queue := s.queue[1..], workers := s.workers[i := Posting(s.queue[0])])
    ensures Places(t) == Places(s)
  {
    hide All, Carried;
    AllOfTail(s.queue);
    CarriedChanges(s.workers, i, Posting(s.queue[0]));
    var held := multiset(s.queue[0]);
    assert Carried(t.workers) == Carried(s.workers) + held;
    assert All(s.queue) == held + All(t.queue);
  }

  lemma PostMoves(s: State, i: nat, t: State)
    requires i < |s.workers| && s.workers[i].Posting? && t.pending == s.pending && t.queue == s.queue
    requires (t.workers == s.workers[i := Counting(s.workers[i].batch)]
              && t.posted == s.posted + [s.workers[i].batch] && t.lost == s.lost)
          || (t.workers == s.workers[i := Exited(true)]
              && t.posted == s.posted && t.lost == s.lost + [s.workers[i].batch])
    ensures Places(t) == Places(s)
  {
    hide All, Carried;
    var held := multiset(s.workers[i].batch);
    AllOfMore(s.posted, s.workers[i].batch);
    AllOfMore(s.lost, s.workers[i].batch);
    CarriedChanges(s.workers, i, t.workers[i]);
    assert Carried(t.workers) + held == Carried(s.workers);
  }

  lemma WorkerConserves(p: Setup, s: State, e: Event)
    requires Conserved(p, s) && Enabled(p, s, e)
    requires e.Take? || e.PostOk? || e.PostFails? || e.Count? || e.Exit?
    ensures Conserved(p, Apply(p, s, e))
  {
    hide Places, Size, Owed, Effort, Weight;
    var t := Apply(p, s, e);
    match e
    case Take(i) =>
      CountsChange(s.workers, i, t.workers[i]);
      TakeMoves(s, i, t);
    case PostOk(i) =>
      CountsChange(s.workers, i, t.workers[i]);
      AllOfMore(s.posted, s.workers[i].batch);
      PostMoves(s, i, t);
    case PostFails(i, _) =>
      CountsChange(s.workers, i, t.workers[i]);
      PostMoves(s, i, t);
    case Count(i) =>
      CountsChange(s.workers, i, t.workers[i]);
      WorkerStaysPut(s, i, t.workers[i], t);
    case Exit(i) =>
      CountsChange(s.workers, i, t.workers[i]);
      WorkerStaysPut(s, i, t.workers[i], t);
  }

  lemma StepConserves(p: Setup, s: State, e: Event)
    requires Conserved(p, s) && Enabled(p, s, e)
    ensures Conserved(p, Apply(p, s, e))
  {
    hide Conserved, Apply, Enabled;
    if e.Check? || e.Read? || e.Send? || e.GiveUp? || e.Close? || e.Finish? {
      ReaderConserves(p, s, e);
    } else {
      WorkerConserves(p, s, e);
    }
  }

  lemma StepRemembers(p: Setup, s: State, e: Event)
    requires Remembered(s) && Ordered(p, s) && Enabled(p, s, e)
    ensures Remembered(Apply(p, s, e)) && Ordered(p, Apply(p, s, e))
  {
  }

  // ---------------------------------------------------------------- runs

  ghost predicate Run(p: Setup, s: State, events: seq<Event>, t: State)
    decreases |events|
  {
    if events == [] then s == t
    else Enabled(p, s, events[0]) && Run(p, Apply(p, s, events[0]), events[1..], t)
  }

  lemma {:induction false} RunKeepsInv(p: Setup, s: State, events: seq<Event>, t: State)
    requires Inv(p, s) && Run(p, s, events, t)
    ensures Inv(p, t)
    decreases |events|
  {
    hide Apply, Conserved, Remembered, Ordered;
    if events != [] {
      StepConserves(p, s, events[0]);
      StepRemembers(p, s, events[0]);
      RunKeepsInv(p, Apply(p, s, events[0]), events[1..], t);
    }
  }

  /** A state in which replay has returned nil: everything is posted, exactly once. */
  lemma NilMeansAllPosted(p: Setup, s: State)
    requires p.Valid() && Inv(p, s) && s.result == Some(None)
    ensures p.clean && multiset(p.messages) == All(s.posted) && s.rows == |p.messages|
  {
    hide All, Size, Carried, Owed;
    assert s.workers[0] == Exited(false);
    IdleWorkers(s.workers);
    assert s.queue == [] && s.lost == [] && s.pending == [];
    assert All(s.queue) == multiset{} && All(s.lost) == multiset{} by { NothingIn(s.queue); NothingIn(s.lost); }
    assert p.messages[..s.position] == p.messages;
    SizeIsCount(s.posted);
    assert |multiset(p.messages)| == |p.messages|;
  }

  lemma NothingIn(batches: seq<Batch>)
    requires batches == []
    ensures All(batches) == multiset{}
  {
  }

  /** Main result: in every interleaving, replay returns nil only if the file was read to a
      clean end, every message of it was posted exactly once, and the row counter is their
      number. */
  lemma EveryNilRunIsComplete(p: Setup, events: seq<Event>, s: State)
    requires p.Valid() && Run(p, Start(p), events, s) && s.result == Some(None)
    ensures p.clean && multiset(p.messages) == All(s.posted) && s.rows == |p.messages|
  {
    StartInv(p);
    RunKeepsInv(p, Start(p), events, s);
    NilMeansAllPosted(p, s);
  }

  // ---------------------------------------------------------------- when an error is returned

  /** Some post of the run failed with this code. */
  ghost predicate PostFailed(events: seq<Event>, code: nat) {
    exists i :: PostFails(i, code) in events
  }

  /** An error is the file's, or that of a post that failed. */
  ghost predicate Caused(p: Setup, events: seq<Event>, e: Error) {
    match e
    case ReadError => !p.clean
    case PostError(code) => PostFailed(events, code)
  }

  ghost predicate AllCaused(p: Setup, events: seq<Event>, s: State) {
    (s.errs.Some? ==> s.errs.value.PostError? && Caused(p, events, s.errs.value))
    && (s.reader.Returned? && s.reader.error.Some? ==> Caused(p, events, s.reader.error.value))
    && (s.result.Some? && s.result.value.Some? ==> Caused(p, events, s.result.value.value))
    && ((exists e :: e in events && e.PostFails?) ==> s.lost != [])
  }

  lemma StepCauses(p: Setup, events: seq<Event>, s: State, e: Event)
    requires AllCaused(p, events, s) && Enabled(p, s, e)
    ensures AllCaused(p, events + [e], Apply(p, s, e))
  {
    hide Caused;
    forall x: Error | Caused(p, events, x) ensures Caused(p, events + [e], x) { StillCaused(p, events, e, x); }
    match e
    case PostFails(i, code) =>
      assert PostFails(i, code) in events + [e];
      FailureIsCause(p, events + [e], i, code);
    case Read => FileIsCause(p, events + [e]);
    case _ =>
  }

  lemma StillCaused(p: Setup, events: seq<Event>, e: Event, x: Error)
    requires Caused(p, events, x)
    ensures Caused(p, events + [e], x)
  {
    if x.PostError? {
      var i :| PostFails(i, x.code) in events;
      assert PostFails(i, x.code) in events + [e];
    }
  }

  lemma FileIsCause(p: Setup, events: seq<Event>)
    ensures Caused(p, events, ReadError) <==> !p.clean
  {
  }

  lemma FailureIsCause(p: Setup, events: seq<Event>, i: nat, code: nat)
    requires PostFails(i, code) in events
    ensures Caused(p, events, PostError(code))
  {
  }

  lemma {:induction false} RunCauses(p: Setup, past: seq<Event>, s: State, events: seq<Event>, t: State)
    requires AllCaused(p, past, s) && Run(p, s, events, t)
    ensures AllCaused(p, past + events, t)
    decreases |events|
  {
    hide Apply, Enabled, AllCaused;
    if events == [] {
      assert past + events == past;
    } else {
      StepCauses(p, past, s, events[0]);
      RunCauses(p, past + [events[0]], Apply(p, s, events[0]), events[1..], t);
      assert past + [events[0]] + events[1..] == past + events;
    }
  }

  /** A replay that returns fails exactly when the file does not end cleanly or some post
      failed, and the error it returns is one of theirs. */
  lemma NilIff(p: Setup, events: seq<Event>, s: State)
    requires p.Valid() && Run(p, Start(p), events, s) && s.result.Some?
    ensures s.result == Some(None) <==> p.clean && forall e :: e in events ==> !e.PostFails?
    ensures s.result.value.Some? ==> Caused(p, events, s.result.value.value)
  {
    hide Conserved, Run;
    StartInv(p);
    RunKeepsInv(p, Start(p), events, s);
    RunCauses(p, [], Start(p), events, s);
    assert [] + events == events;
    assert Remembered(s) && Ordered(p, s);
  }

  /** No interleaving deadlocks, even when every worker has failed: until replay returns, some
      step is possible. */
  lemma SomeStepIsPossible(p: Setup, s: State)
    requires p.Valid() && Inv(p, s) && s.result.None?
    ensures exists e :: Enabled(p, s, e)
  {
    hide All, Size, Carried, Owed;
    match s.reader
    case Checking => assert Enabled(p, s, Check);
    case Reading => assert Enabled(p, s, Read);
    case Sending(_) =>
      if s.errs.Some? {
        assert Enabled(p, s, GiveUp);
      } else if |s.queue| < p.Capacity() {
        assert Enabled(p, s, Send);
      } else {
        assert !s.workers[0].Exited?;
        BusyWorker(p, s, 0);
      }
    case Returned(_) =>
      if !s.closed {
        assert Enabled(p, s, Close);
      } else if i :| 0 <= i < |s.workers| && !s.workers[i].Exited? {
        BusyWorker(p, s, i);
      } else {
        assert Enabled(p, s, Finish);
      }
  }

  /** A worker that has not exited can move when there is work or the channel is closed. */
  lemma BusyWorker(p: Setup, s: State, i: nat)
    requires s.result.None? && i < |s.workers| && !s.workers[i].Exited? && (s.queue != [] || s.closed)
    ensures exists e :: Enabled(p, s, e)
  {
    match s.workers[i]
    case Idle =>
      if s.queue != [] {
        assert Enabled(p, s, Take(i));
      } else {
        assert Enabled(p, s, Exit(i));
      }
    case Posting(_) => assert Enabled(p, s, PostOk(i));
    case Counting(_) => assert Enabled(p, s, Count(i));
  }

  // ---------------------------------------------------------------- termination

  function Weight(w: Worker): nat {
    match w
    case Idle => 1
    case Posting(_) => 4
    case Counting(_) => 3
    case Exited(_) => 0
  }

  function Effort(workers: seq<Worker>): nat {
    if workers == [] then 0 else Effort(workers[..|workers| - 1]) + Weight(workers[|workers| - 1])
  }

  function ReaderWork(r: Reader): nat {
    match r
    case Checking => 8
    case Reading => 7
    case Sending(last) => if last then 6 else 14
    case Returned(_) => 0
  }

  function Work(p: Setup, s: State): int {
    16 * (|p.messages| - s.position) + ReaderWork(s.reader) + 5 * |s.queue| + Effort(s.workers)
    + (if s.closed then 0 else 1) + if s.result.Some? then 0 else 1
  }

  /** Every step uses up work, so with the lemma above every run ends with a result. */
  lemma StepsUseWork(p: Setup, s: State, e: Event)
    requires Inv(p, s) && Enabled(p, s, e)
    ensures 0 <= Work(p, Apply(p, s, e)) < Work(p, s)
  {
    hide Conserved, Remembered, Ordered, Owed, Effort;
    assert s.position <= |p.messages| by { PositionInFile(p, s); }
    var t := Apply(p, s, e);
    match e
    case Take(i) => CountsChange(s.workers, i, t.workers[i]);
    case PostOk(i) => CountsChange(s.workers, i, t.workers[i]);
    case PostFails(i, _) => CountsChange(s.workers, i, t.workers[i]);
    case Count(i) => CountsChange(s.workers, i, t.workers[i]);
    case Exit(i) => CountsChange(s.workers, i, t.workers[i]);
    case _ =>
  }

  lemma PositionInFile(p: Setup, s: State)
    requires Inv(p, s)
    ensures s.position <= |p.messages|
  {
  }

  // ---------------------------------------------------------------- payloads

  /** readBatches frames each message into the payload of the batch as it reads it. */
  method FillPayload(batch: Batch) returns (payload: seq<Byte>)
    ensures payload == Framed(batch)
  {
    payload := [];
    for i := 0 to |batch|
      invariant payload == Framed(batch[..i])
    {
      assert batch[..i + 1][..i] == batch[..i];
      payload := payload + [0x0a];
      payload := payload + Uvarint(|batch[i]|);
      payload := payload + batch[i];
      assert payload == Framed(batch[..i]) + Frame(batch[i]);
    }
    assert batch[..|batch|] == batch;
  }

  /** What is posted is what was read: the receiver takes every accepted payload apart into
      the messages of its batch, in order. */
  lemma ReceiverGetsMessages(p: Setup, events: seq<Event>, s: State, k: nat)
    requires p.Valid() && Run(p, Start(p), events, s) && k < |s.posted|
    requires forall m :: m in p.messages ==> |m| < TWO64
    ensures Scan(Framed(s.posted[k]), 0) == Fields(Unframed(s.posted[k]))
  {
    hide Framed, Unframed, Scan;
    StartInv(p);
    RunKeepsInv(p, Start(p), events, s);
    forall m | m in s.posted[k] ensures |m| < TWO64 {
      PartOfAll(s.posted, k, m);
      assert m in multiset(p.messages[..s.position]);
    }
    PayloadRoundTrip(s.posted[k]);
  }

  lemma {:induction false} PartOfAll(batches: seq<Batch>, k: nat, m: Message)
    requires k < |batches| && m in batches[k]
    ensures m in All(batches)
  {
    var n := |batches| - 1;
    if k < n {
      PartOfAll(batches[..n], k, m);
    }
  }
}
