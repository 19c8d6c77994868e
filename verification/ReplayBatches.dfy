/** How the replay tool cuts the file into batches, and how soon a failure stops it. */
module ReplayBatches {
  import opened Options
  import opened Arithmetic
  import opened Replay

  /** The file cut every n messages; only the last piece may be shorter. */
  function Pieces(m: seq<Message>, n: nat): seq<Batch>
    requires n > 0
  {
    if m == [] then [] else if |m| <= n then [m] else [m[..n]] + Pieces(m[n..], n)
  }

  lemma {:induction false} OneMorePiece(m: seq<Message>, b: Batch, n: nat)
    requires n > 0 && |m| % n == 0 && 0 < |b| <= n
    ensures Pieces(m + b, n) == Pieces(m, n) + [b]
    decreases |m|
  {
    if m == [] {
      assert m + b == b;
    } else {
      var rest := m[n..];
      RemainderIs(|rest|, n, |m| / n - 1, 0);
      assert (m + b)[..n] == m[..n] && (m + b)[n..] == rest + b;
      OneMorePiece(rest, b, n);
      if rest == [] {
        assert Pieces(m, n) == [m[..n]] && m[..n] == m;
      }
    }
  }

  // ---------------------------------------------------------------- where the batches are

  function HeldBatch(w: Worker): multiset<Batch> { if w.Posting? then multiset{w.batch} else multiset{} }

  function HeldBatches(workers: seq<Worker>): multiset<Batch> {
    if workers == [] then multiset{} else HeldBatches(workers[..|workers| - 1]) + HeldBatch(workers[|workers| - 1])
  }

  lemma {:induction false} HeldChanges(workers: seq<Worker>, i: nat, w: Worker)
    requires i < |workers|
    ensures HeldBatches(workers[i := w]) + HeldBatch(workers[i]) == HeldBatches(workers) + HeldBatch(w)
  {
    hide HeldBatch;
    var n := |workers| - 1;
    if i == n {
      assert workers[i := w][..n] == workers[..n];
    } else {
      assert workers[i := w][..n] == workers[..n][i := w];
      HeldChanges(workers[..n], i, w);
      var (was, now, last) := (HeldBatches(workers[..n]), HeldBatches(workers[..n][i := w]), HeldBatch(workers[n]));
      assert now + last + HeldBatch(workers[i]) == now + HeldBatch(workers[i]) + last;
      assert was + HeldBatch(w) + last == was + last + HeldBatch(w);
    }
  }

  lemma {:induction false} NothingHeld(workers: seq<Worker>)
    requires forall i :: 0 <= i < |workers| ==> !workers[i].Posting?
    ensures HeldBatches(workers) == multiset{}
  {
    if workers != [] {
      NothingHeld(workers[..|workers| - 1]);
    }
  }

  /** The batches sent so far, posted or not. */
  function Sent(s: State): multiset<Batch> {
    multiset(s.queue) + HeldBatches(s.workers) + multiset(s.posted) + multiset(s.lost)
  }

  /** The payload being filled holds the last messages read; those before it were sent in
      pieces of the batch size. */
  ghost predicate Cut(p: Setup, s: State) {
    p.batchSize > 0 && |s.pending| <= s.position <= |p.messages|
    && var sent := s.position - |s.pending|;
       s.pending == p.messages[sent..s.position]
       && Sent(s) == multiset(Pieces(p.messages[..sent], p.batchSize))
       && match s.reader
          case Checking => sent % p.batchSize == 0 && |s.pending| < p.batchSize
          case Reading => sent % p.batchSize == 0 && |s.pending| < p.batchSize
          case Sending(last) => sent % p.batchSize == 0 && 0 < |s.pending| <= p.batchSize
          case Returned(_) => true
  }

  lemma SendAdds(s: State, t: State)
    requires t.workers == s.workers && t.posted == s.posted
    requires (t.queue == s.queue + [s.pending] && t.lost == s.lost)
          || (t.queue == s.queue && t.lost == s.lost + [s.pending])
    ensures Sent(t) == Sent(s) + multiset{s.pending}
  {
    hide HeldBatches;
  }

  lemma SendCuts(p: Setup, s: State, t: State)
    requires Cut(p, s) && s.reader.Sending? && t.position == s.position && t.pending == []
    requires t.reader.Checking? || t.reader.Reading? ==> |s.pending| == p.batchSize
    requires !t.reader.Sending? && Sent(t) == Sent(s) + multiset{s.pending}
    ensures Cut(p, t)
  {
    hide Sent, Pieces;
    var sent := s.position - |s.pending|;
    var before := p.messages[..sent];
    assert p.messages[..s.position] == before + s.pending;
    OneMorePiece(before, s.pending, p.batchSize);
    assert multiset(Pieces(before, p.batchSize) + [s.pending])
        == multiset(Pieces(before, p.batchSize)) + multiset{s.pending};
    RemainderIs(sent + p.batchSize, p.batchSize, sent / p.batchSize + 1, 0);
  }

  lemma SentStays(s: State, t: State)
    requires t.queue == s.queue && t.posted == s.posted && t.lost == s.lost && t.workers == s.workers
    ensures Sent(t) == Sent(s)
  {
  }

  lemma ReaderCuts(p: Setup, s: State, e: Event)
    requires Cut(p, s) && Sized(p, s) && Enabled(p, s, e)
    requires e.Check? || e.Read? || e.Send? || e.GiveUp? || e.Close? || e.Finish?
    ensures Cut(p, Apply(p, s, e))
  {
    hide Sent, Pieces;
    var t := Apply(p, s, e);
    if e.Send? || e.GiveUp? {
      SendAdds(s, t);
      SendCuts(p, s, t);
    } else {
      SentStays(s, t);
      if e.Read? && s.position < |p.messages| {
        assert t.pending == p.messages[s.position - |s.pending|..t.position];
      }
    }
  }

  /** A payload sent before the end of the file is full. */
  ghost predicate Sized(p: Setup, s: State) {
    s.reader.Sending? && !s.reader.last ==> |s.pending| >= p.batchSize
  }

  lemma StaysSized(p: Setup, s: State, e: Event)
    requires Sized(p, s) && Enabled(p, s, e)
    ensures Sized(p, Apply(p, s, e))
  {
  }

  lemma TakeStays(s: State, i: nat, t: State)
    requires i < |s.workers| && s.workers[i].Idle? && s.queue != []
    requires t == s.(queue := s.queue[1..], workers := s.workers[i := Posting(s.queue[0])])
    ensures Sent(t) == Sent(s)
  {
    hide HeldBatches;
    HeldChanges(s.workers, i, t.workers[i]);
    assert s.queue == [s.queue[0]] + t.queue;
    assert multiset(s.queue) == multiset{s.queue[0]} + multiset(t.queue);
    assert HeldBatches(t.workers) == HeldBatches(s.workers) + multiset{s.queue[0]};
  }

  lemma PostStays(s: State, i: nat, t: State)
    requires i < |s.workers| && s.workers[i].Posting? && t.queue == s.queue
    requires (t.workers == s.workers[i := Counting(s.workers[i].batch)]
              && t.posted == s.posted + [s.workers[i].batch] && t.lost == s.lost)
          || (t.workers == s.workers[i := Exited(true)]
              && t.posted == s.posted && t.lost == s.lost + [s.workers[i].batch])
    ensures Sent(t) == Sent(s)
  {
    hide HeldBatches;
    HeldChanges(s.workers, i, t.workers[i]);
    assert HeldBatches(t.workers) + multiset{s.workers[i].batch} == HeldBatches(s.workers);
  }

  lemma WorkerStays(s: State, i: nat, w: Worker, t: State)
    requires i < |s.workers| && !s.workers[i].Posting? && !w.Posting?
    requires t.queue == s.queue && t.posted == s.posted && t.lost == s.lost && t.workers == s.workers[i := w]
    ensures Sent(t) == Sent(s)
  {
    hide HeldBatches;
    HeldChanges(s.workers, i, w);
    assert HeldBatches(t.workers) + multiset{} == HeldBatches(t.workers);
    assert HeldBatches(s.workers) + multiset{} == HeldBatches(s.workers);
  }

  lemma WorkerCuts(p: Setup, s: State, e: Event)
    requires Cut(p, s) && Enabled(p, s, e)
    requires e.Take? || e.PostOk? || e.PostFails? || e.Count? || e.Exit?
    ensures Cut(p, Apply(p, s, e))
  {
    hide Sent, Pieces;
    var t := Apply(p, s, e);
    match e
    case Take(i) => TakeStays(s, i, t);
    case PostOk(i) => PostStays(s, i, t);
    case PostFails(i, _) => PostStays(s, i, t);
    case Count(i) => WorkerStays(s, i, t.workers[i], t);
    case Exit(i) => WorkerStays(s, i, t.workers[i], t);
  }

  lemma {:induction false} RunCuts(p: Setup, s: State, events: seq<Event>, t: State)
    requires Cut(p, s) && Sized(p, s) && Run(p, s, events, t)
    ensures Cut(p, t)
    decreases |events|
  {
    hide Apply, Enabled, Cut, Sized;
    if events != [] {
      var e := events[0];
      StaysSized(p, s, e);
      if e.Check? || e.Read? || e.Send? || e.GiveUp? || e.Close? || e.Finish? {
        ReaderCuts(p, s, e);
      } else {
        WorkerCuts(p, s, e);
      }
      RunCuts(p, Apply(p, s, e), events[1..], t);
    }
  }

  /** When replay returns nil the accepted batches are exactly the pieces of the file: full
      batches of consecutive messages in file order, and one last smaller one. */
  lemma NilPostsThePieces(p: Setup, events: seq<Event>, s: State)
    requires p.Valid() && Run(p, Start(p), events, s) && s.result == Some(None)
    ensures multiset(s.posted) == multiset(Pieces(p.messages, p.batchSize))
  {
    hide Run, Conserved, Pieces, HeldBatches;
    var start := Start(p);
    StartInv(p);
    RunKeepsInv(p, start, events, s);
    NothingHeld(start.workers);
    NoPieces(p.batchSize);
    RunCuts(p, start, events, s);
    assert Remembered(s) && Ordered(p, s) && s.workers[0] == Exited(false);
    NothingHeld(s.workers);
    assert p.messages[..s.position] == p.messages;
  }

  lemma NoPieces(n: nat)
    requires n > 0
    ensures forall m: seq<Message> :: m == [] ==> Pieces(m, n) == []
  {
  }

  // ---------------------------------------------------------------- failing fast

  /** How many more messages are read while an error waits. */
  function Allowance(s: State): nat { if s.reader.Reading? then 1 else 0 }

  /** Once an error waits, the reader reads no message but the one it is at. */
  lemma {:induction false} StopsSoon(p: Setup, s: State, events: seq<Event>, t: State)
    requires Run(p, s, events, t) && (s.errs.Some? || s.reader.Returned?)
    ensures t.position <= s.position + Allowance(s)
    decreases |events|
  {
    if events != [] {
      StopsSoon(p, Apply(p, s, events[0]), events[1..], t);
    }
  }

  // ---------------------------------------------------------------- memory

  /** At most twice as many batches as there are workers wait in the channel. */
  lemma {:induction false} QueueIsBounded(p: Setup, s: State, events: seq<Event>, t: State)
    requires Run(p, s, events, t) && |s.queue| <= 2 * p.workers
    ensures |t.queue| <= 2 * p.workers
    decreases |events|
  {
    if events != [] {
      QueueIsBounded(p, Apply(p, s, events[0]), events[1..], t);
    }
  }
}
