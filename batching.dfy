/** What the batching logger does, stated on values: how the synchronous drain
    (`process_batch`) cuts the queue into bulk inserts, and what one iteration
    of the background worker (`_process_queue`) does to the queue, its batch,
    `last_flush` and the calls the sink receives. The class in module Logger is
    proved against these definitions. */
module Batching {
  import opened Records
  import opened Storage
  import opened Arith

  /** The batch length at which the size trigger `len(batch) >= batch_size`
      fires: it already holds after the first append when `batch_size <= 1`. */
  function ChunkSize(batchSize: int): (b: nat)
    ensures b >= 1
    ensures batchSize >= 1 ==> b == batchSize
  {
    if batchSize >= 1 then batchSize else 1
  }

  // ---------------------------------------------------------------------------
  // The synchronous drain

  /** `q` cut into consecutive chunks of `b` records; the last one holds the
      remainder. */
  function Chunks<T>(q: seq<T>, b: nat): (cs: seq<seq<T>>)
    requires b >= 1
    ensures cs == [] <==> q == []
    decreases |q|
  {
    if |q| <= b then
      if q == [] then [] else [q]
    else
      [q[..b]] + Chunks(q[b..], b)
  }

  /** The chunks, put back together, are the queue. */
  lemma {:induction false} ChunksFlatten<T>(q: seq<T>, b: nat)
    requires b >= 1
    ensures Flatten(Chunks(q, b)) == q
    decreases |q|
  {
    var cs := Chunks(q, b);
    if |q| > b {
      ChunksFlatten(q[b..], b);
      assert cs[1..] == Chunks(q[b..], b);
      assert q == q[..b] + q[b..];
    } else if q != [] {
      assert cs[1..] == [];
    }
  }

  /** A full first chunk is cut off on its own. */
  lemma ChunksCons<T>(a: seq<T>, rest: seq<T>, b: nat)
    requires b >= 1 && |a| == b
    ensures Chunks(a + rest, b) == [a] + Chunks(rest, b)
  {
    var q := a + rest;
    assert q[..b] == a && q[b..] == rest;
    if rest == [] {
      assert q == a;
    }
  }

  /** A queue of at most B records is one chunk. */
  lemma ChunksSingle<T>(a: seq<T>, b: nat)
    requires b >= 1 && 0 < |a| <= b
    ensures Chunks(a, b) == [a]
  {
  }

  /** Every chunk is non-empty and at most B long; all but the last are
      exactly B long. */
  lemma {:induction false} ChunkSizes<T>(q: seq<T>, b: nat)
    requires b >= 1
    ensures forall i :: 0 <= i < |Chunks(q, b)| ==> 0 < |Chunks(q, b)[i]| <= b
    ensures forall i :: 0 <= i < |Chunks(q, b)| - 1 ==> |Chunks(q, b)[i]| == b
    decreases |q|
  {
    var cs := Chunks(q, b);
    if |q| > b {
      var rest := Chunks(q[b..], b);
      ChunkSizes(q[b..], b);
      assert cs == [q[..b]] + rest;
      forall i | 0 < i < |cs|
        ensures 0 < |cs[i]| <= b && (i < |cs| - 1 ==> |cs[i]| == b)
      {
        assert cs[i] == rest[i - 1];
      }
    } else if q != [] {
      ChunksSingle(q, b);
    }
  }

  lemma {:induction false} ChunksLength<T>(q: seq<T>, b: nat)
    requires b >= 1 && q != []
    ensures var cs := Chunks(q, b); |q| == (|cs| - 1) * b + |cs[|cs| - 1]|
    decreases |q|
  {
    if |q| > b {
      var tail := q[b..];
      var rest := Chunks(tail, b);
      ChunksLength(tail, b);
      assert q == q[..b] + tail;
      ChunksCons(q[..b], tail, b);
      var k := |rest|;
      MulSucc(k, b);
    } else {
      ChunksSingle(q, b);
    }
  }

  /** A queue of N records with chunk size B is inserted in ceil(N / B) calls. */
  lemma ChunkCount<T>(q: seq<T>, b: nat)
    requires b >= 1
    ensures |Chunks(q, b)| == (|q| + b - 1) / b
  {
    if q == [] {
      DivModUnique(b - 1, b, 0, b - 1);
    } else {
      var cs := Chunks(q, b);
      var k, last := |cs|, |cs[|cs| - 1]|;
      ChunksLength(q, b);
      ChunkSizes(q, b);
      assert 0 <= last - 1 < b;
      assert |q| + b - 1 == k * b + (last - 1);
      DivModUnique(|q| + b - 1, b, k, last - 1);
    }
  }

  /** The final chunk holds N mod B records, or B when B divides N. */
  lemma LastChunkSize<T>(q: seq<T>, b: nat)
    requires b >= 1 && q != []
    ensures var cs := Chunks(q, b); |cs[|cs| - 1]| == if |q| % b == 0 then b else |q| % b
  {
    var cs := Chunks(q, b);
    var k, last := |cs|, |cs[|cs| - 1]|;
    ChunksLength(q, b);
    ChunkSizes(q, b);
    assert 0 < last <= b;
    if last == b {
      assert |q| == k * b + 0;
      DivModUnique(|q|, b, k, 0);
    } else {
      DivModUnique(|q|, b, k - 1, last);
    }
  }

  /** The outcome of draining `q` with chunk size `b`: the chunks of `q` were
      handed to the sink in order, until one of them failed. `ok` means the
      drain completed: every chunk was inserted and none failed. */
  predicate DrainCalls(q: seq<Request>, b: nat, calls: seq<Insert>, ok: bool)
    requires b >= 1
  {
    var cs := Chunks(q, b);
    && |calls| <= |cs|
    && Batches(calls) == cs[..|calls|]
    && (forall i :: 0 <= i < |calls| - 1 ==> calls[i].succeeded)
    && (ok ==> |calls| == |cs| && forall i :: 0 <= i < |calls| ==> calls[i].succeeded)
    && (!ok ==> calls != [] && !calls[|calls| - 1].succeeded)
  }

  /** The drain part-way: the calls so far succeeded and inserted the leading
      chunks of `q`, and the chunks of what is left (`batch + rest`) are the
      remaining ones. */
  predicate DrainProgress(q: seq<Request>, b: nat, done: seq<Insert>,
                          batch: seq<Request>, rest: seq<Request>)
    requires b >= 1
  {
    && Chunks(q, b) == Batches(done) + Chunks(batch + rest, b)
    && (forall i :: 0 <= i < |done| ==> done[i].succeeded)
  }

  /** Before the first call. */
  lemma DrainStart(q: seq<Request>, b: nat)
    requires b >= 1
    ensures DrainProgress(q, b, [], [], q)
  {
    assert [] + q == q;
  }

  /** Part-way, the records handed over, the batch and the rest of the queue,
      in this order, are the queue. */
  lemma DrainProgressAttempted(q: seq<Request>, b: nat, done: seq<Insert>,
                               batch: seq<Request>, rest: seq<Request>)
    requires b >= 1 && DrainProgress(q, b, done, batch, rest)
    ensures Attempted(done) + batch + rest == q
  {
    ChunksFlatten(q, b);
    ChunksFlatten(batch + rest, b);
    FlattenAppend(Batches(done), Chunks(batch + rest, b));
  }

  /** Moving the next queued record into the batch keeps the progress. */
  lemma DrainTake(q: seq<Request>, b: nat, done: seq<Insert>,
                  batch: seq<Request>, rest: seq<Request>)
    requires b >= 1 && rest != [] && DrainProgress(q, b, done, batch, rest)
    ensures DrainProgress(q, b, done, batch + [rest[0]], rest[1..])
  {
    assert batch + rest == (batch + [rest[0]]) + rest[1..];
  }

  /** A batch that reached B records is the next chunk: inserting it
      successfully extends the progress by one chunk. */
  lemma DrainNextChunk(q: seq<Request>, b: nat, done: seq<Insert>,
                       batch: seq<Request>, rest: seq<Request>)
    requires b >= 1 && |batch| == b && DrainProgress(q, b, done, batch, rest)
    ensures DrainProgress(q, b, done + [Insert(batch, true)], [], rest)
  {
    var calls := done + [Insert(batch, true)];
    ChunksCons(batch, rest, b);
    assert Batches(calls) == Batches(done) + [batch];
    assert Chunks(q, b) == Batches(done) + ([batch] + Chunks(rest, b));
    assert Chunks(q, b) == Batches(calls) + Chunks(rest, b);
    assert [] + rest == rest;
    forall i | 0 <= i < |calls|
      ensures calls[i].succeeded
    {
      if i < |done| {
        assert calls[i] == done[i];
      }
    }
  }

  /** A failed insert of the next chunk ends the drain as a failed one, with
      the rest of the queue left behind. */
  lemma DrainChunkFails(q: seq<Request>, b: nat, done: seq<Insert>,
                        batch: seq<Request>, rest: seq<Request>)
    requires b >= 1 && |batch| == b && DrainProgress(q, b, done, batch, rest)
    ensures DrainCalls(q, b, done + [Insert(batch, false)], false)
    ensures Attempted(done + [Insert(batch, false)]) + rest == q
  {
    var calls := done + [Insert(batch, false)];
    ChunksCons(batch, rest, b);
    assert Batches(calls) == Batches(done) + [batch];
    assert Chunks(q, b) == Batches(calls) + Chunks(rest, b);
    DrainProgressAttempted(q, b, done, batch, rest);
    AttemptedAppend(done, [Insert(batch, false)]);
    AttemptedSingle(Insert(batch, false));
  }

  /** When the queue ran out, the leftover batch is the last chunk; after its
      insert the drain is complete or failed according to `ok`. */
  lemma DrainLastChunk(q: seq<Request>, b: nat, done: seq<Insert>,
                       batch: seq<Request>, ok: bool)
    requires b >= 1 && 0 < |batch| < b && DrainProgress(q, b, done, batch, [])
    ensures DrainCalls(q, b, done + [Insert(batch, ok)], ok)
    ensures Attempted(done + [Insert(batch, ok)]) == q
  {
    var calls := done + [Insert(batch, ok)];
    assert batch + [] == batch;
    ChunksSingle(batch, b);
    assert Batches(calls) == Batches(done) + [batch];
    assert Chunks(q, b) == Batches(calls);
    DrainProgressAttempted(q, b, done, batch, []);
    AttemptedAppend(done, [Insert(batch, ok)]);
    AttemptedSingle(Insert(batch, ok));
  }

  /** With nothing left, the drain is complete. */
  lemma DrainNothingLeft(q: seq<Request>, b: nat, done: seq<Insert>)
    requires b >= 1 && DrainProgress(q, b, done, [], [])
    ensures DrainCalls(q, b, done, true)
    ensures Attempted(done) == q
  {
    assert Chunks(q, b) == Batches(done);
    DrainProgressAttempted(q, b, done, [], []);
  }

  /** The calls of a drain, seen as the tail of the sink's whole call log. */
  lemma DrainLogged(q: seq<Request>, b: nat, before: seq<Insert>, done: seq<Insert>,
                    rest: seq<Request>, ok: bool)
    requires b >= 1 && DrainCalls(q, b, done, ok) && Attempted(done) + rest == q
    ensures var calls := before + done;
            && before <= calls
            && Attempted(calls[|before|..]) + rest == q
            && DrainCalls(q, b, calls[|before|..], ok)
  {
    assert (before + done)[|before|..] == done;
  }

  /** The records a drain hands to the sink are a prefix of the queue; the
      rest of the queue is what it leaves. */
  lemma DrainAttempted(q: seq<Request>, b: nat, calls: seq<Insert>, ok: bool)
    requires b >= 1 && DrainCalls(q, b, calls, ok)
    ensures Attempted(calls) <= q
  {
    var cs := Chunks(q, b);
    ChunksFlatten(q, b);
    ChunksPrefix(cs, |calls|);
  }

  /** A completed drain of N records persists exactly those N records, in
      queue order, in ceil(N / B) calls of B records each, but for the last,
      which holds the rest; an empty queue makes no call. */
  lemma DrainComplete(q: seq<Request>, b: nat, calls: seq<Insert>)
    requires b >= 1 && DrainCalls(q, b, calls, true)
    ensures Persisted(calls) == Attempted(calls) == q
    ensures |calls| == (|q| + b - 1) / b
    ensures q == [] <==> calls == []
    ensures forall i :: 0 <= i < |calls| ==> 0 < |calls[i].records| <= b
    ensures forall i :: 0 <= i < |calls| - 1 ==> |calls[i].records| == b
  {
    var cs := Chunks(q, b);
    assert Batches(calls) == cs;
    ChunksFlatten(q, b);
    PersistedAllSucceeded(calls);
    ChunkCount(q, b);
    ChunkSizes(q, b);
  }

  /** A drain that failed lost only the chunk whose insert raised: what the
      table gained is the queue up to that chunk. */
  lemma DrainFailed(q: seq<Request>, b: nat, calls: seq<Insert>)
    requires b >= 1 && DrainCalls(q, b, calls, false)
    ensures Attempted(calls) <= q
    ensures Persisted(calls) + calls[|calls| - 1].records == Attempted(calls)
    ensures 0 < |calls[|calls| - 1].records| <= b
  {
    var cs := Chunks(q, b);
    DrainAttempted(q, b, calls, false);
    ChunkSizes(q, b);
    assert Batches(calls)[|calls| - 1] == cs[|calls| - 1];
    var n := |calls|;
    SplitLast(calls);
    assert forall i :: 0 <= i < n - 1 ==> calls[..n - 1][i] == calls[i];
    PersistedFailedLast(calls[..n - 1], calls[n - 1]);
  }

  lemma ChunksPrefix<T>(cs: seq<seq<T>>, n: nat)
    requires n <= |cs|
    ensures Flatten(cs[..n]) <= Flatten(cs)
  {
    assert cs == cs[..n] + cs[n..];
    FlattenAppend(cs[..n], cs[n..]);
  }

  /** When only the last call failed, the table holds all attempted records
      but that call's. */
  lemma PersistedFailedLast(init: seq<Insert>, last: Insert)
    requires !last.succeeded
    requires forall i :: 0 <= i < |init| ==> init[i].succeeded
    ensures Persisted(init + [last]) + last.records == Attempted(init + [last])
  {
    PersistedSnoc(init, last);
    PersistedAllSucceeded(init);
    AttemptedAppend(init, [last]);
    AttemptedSingle(last);
    assert Persisted(init + [last]) == Attempted(init);
    assert Attempted(init + [last]) == Attempted(init) + last.records;
  }

  // ---------------------------------------------------------------------------
  // One iteration of the background worker

  /** The thresholds: records per batch, and seconds between time-based flushes. */
  datatype Config = Config(batchSize: int, flushInterval: int)

  /** The clock counts microseconds; `flush_interval` counts seconds. */
  const MICROS_PER_SECOND := 1000000

  /** What one worker iteration reads and writes. */
  datatype WorkerState = WorkerState(
    queue: seq<Request>,
    batch: seq<Request>,
    lastFlush: int,
    calls: seq<Insert>)

  /** `_flush_batch`: one bulk insert of the whole batch; the batch is cleared
      whatever the outcome; `last_flush` moves to `now` only on success. */
  function Flush(w: WorkerState, now: int, ok: bool): WorkerState {
    w.(batch := [],
       calls := w.calls + [Insert(w.batch, ok)],
       lastFlush := if ok then now else w.lastFlush)
  }

  /** `queue.get(timeout=1)`: the oldest queued record joins the batch, then the
      size trigger; with an empty queue the wait times out and nothing changes. */
  function Receive(c: Config, w: WorkerState, now: int, ok: bool): WorkerState {
    if w.queue == [] then w
    else
      var w1 := w.(queue := w.queue[1..], batch := w.batch + [w.queue[0]]);
      if |w1.batch| >= c.batchSize then Flush(w1, now, ok) else w1
  }

  /** The time trigger: a non-empty batch, and strictly more than
      `flush_interval` seconds since the last successful flush. */
  predicate TimeDue(c: Config, batch: seq<Request>, lastFlush: int, now: int) {
    batch != [] && now - lastFlush > c.flushInterval * MICROS_PER_SECOND
  }

  /** One loop iteration. At most one flush happens in it, so one outcome flag
      `ok` for the bulk insert suffices. */
  function Step(c: Config, w: WorkerState, now: int, ok: bool): WorkerState {
    var w1 := Receive(c, w, now, ok);
    if TimeDue(c, w1.batch, w1.lastFlush, now) then Flush(w1, now, ok) else w1
  }

  /** The batch after the iteration's (optional) append, before any flush. */
  function Arrived(w: WorkerState): seq<Request> {
    if w.queue == [] then w.batch else w.batch + [w.queue[0]]
  }

  /** The iteration takes the oldest record, if any, and no other. */
  lemma StepDequeuesFront(c: Config, w: WorkerState, now: int, ok: bool)
    ensures Step(c, w, now, ok).queue == if w.queue == [] then [] else w.queue[1..]
  {
  }

  /** No record is lost, duplicated or reordered by an iteration: the records
      handed to the sink, then the batch, then the queue, stay the same
      sequence, and earlier calls are kept. */
  lemma StepConserves(c: Config, w: WorkerState, now: int, ok: bool)
    ensures var w' := Step(c, w, now, ok);
            && w.calls <= w'.calls
            && Attempted(w'.calls) + w'.batch + w'.queue == Attempted(w.calls) + w.batch + w.queue
  {
    var w1 := Receive(c, w, now, ok);
    ReceiveConserves(c, w, now, ok);
    if TimeDue(c, w1.batch, w1.lastFlush, now) {
      FlushConserves(w1, now, ok);
    }
  }

  lemma FlushConserves(w: WorkerState, now: int, ok: bool)
    ensures var w' := Flush(w, now, ok);
            Attempted(w'.calls) + w'.batch + w'.queue == Attempted(w.calls) + w.batch + w.queue
  {
    AttemptedAppend(w.calls, [Insert(w.batch, ok)]);
    AttemptedSingle(Insert(w.batch, ok));
  }

  lemma ReceiveConserves(c: Config, w: WorkerState, now: int, ok: bool)
    ensures var w' := Receive(c, w, now, ok);
            && w.calls <= w'.calls
            && Attempted(w'.calls) + w'.batch + w'.queue == Attempted(w.calls) + w.batch + w.queue
  {
    if w.queue != [] {
      var w1 := w.(queue := w.queue[1..], batch := w.batch + [w.queue[0]]);
      assert w.queue == [w.queue[0]] + w.queue[1..];
      assert w1.batch + w1.queue == w.batch + w.queue;
      if |w1.batch| >= c.batchSize {
        FlushConserves(w1, now, ok);
      }
    }
  }

  /** A flush happens exactly when the size trigger fires on a fresh append,
      or when the time trigger fires on what is then the batch. */
  lemma StepFlushesWhen(c: Config, w: WorkerState, now: int, ok: bool)
    ensures var w' := Step(c, w, now, ok);
            var sizeFlush := w.queue != [] && |Arrived(w)| >= c.batchSize;
            var timeFlush := TimeDue(c, Arrived(w), w.lastFlush, now);
            && (w'.calls == w.calls <==> !(sizeFlush || timeFlush))
            && (sizeFlush || timeFlush ==> w'.calls == w.calls + [Insert(Arrived(w), ok)])
            && w'.lastFlush == if (sizeFlush || timeFlush) && ok then now else w.lastFlush
  {
  }

  /** With N records in the queue and a threshold `batch_size` >= 1, the batch
      never reaches the threshold between iterations (for `batch_size` <= 0
      it stays empty). */
  lemma StepKeepsBatchSmall(c: Config, w: WorkerState, now: int, ok: bool)
    requires |w.batch| < ChunkSize(c.batchSize)
    ensures |Step(c, w, now, ok).batch| < ChunkSize(c.batchSize)
  {
  }

  /** Every insert an iteration makes is a non-empty batch of at most the
      chunk size. */
  lemma StepInsertSize(c: Config, w: WorkerState, now: int, ok: bool)
    requires |w.batch| < ChunkSize(c.batchSize)
    ensures var w' := Step(c, w, now, ok);
            forall i :: |w.calls| <= i < |w'.calls| ==> 0 < |w'.calls[i].records| <= ChunkSize(c.batchSize)
  {
    StepFlushesWhen(c, w, now, ok);
  }

  /** A failed flush leaves `last_flush` where it was, so the time trigger
      stays armed: the next non-empty batch is flushed in its own iteration. */
  lemma FailedFlushKeepsTimerArmed(c: Config, w: WorkerState, now: int, later: int)
    requires later >= now
    requires TimeDue(c, Arrived(w), w.lastFlush, now)
    ensures var w' := Step(c, w, now, false);
            w'.lastFlush == w.lastFlush && w'.batch == []
            && forall batch :: batch != [] ==> TimeDue(c, batch, w'.lastFlush, later)
  {
  }

  // ---------------------------------------------------------------------------
  // Many iterations

  /** The worker loop run for `|clock|` iterations, the i-th reading the clock
      `clock[i]` and, if it flushes, with insert outcome `outcomes[i]`. */
  function Run(c: Config, w: WorkerState, clock: seq<int>, outcomes: seq<bool>): WorkerState
    requires |clock| == |outcomes|
    decreases |clock|
  {
    if clock == [] then w
    else Run(c, Step(c, w, clock[0], outcomes[0]), clock[1..], outcomes[1..])
  }

  /** Over any number of iterations records are neither lost nor reordered,
      and the batch stays below the threshold. */
  lemma {:induction false} RunConserves(c: Config, w: WorkerState, clock: seq<int>, outcomes: seq<bool>)
    requires |clock| == |outcomes|
    requires |w.batch| < ChunkSize(c.batchSize)
    ensures var w' := Run(c, w, clock, outcomes);
            && w.calls <= w'.calls
            && Attempted(w'.calls) + w'.batch + w'.queue == Attempted(w.calls) + w.batch + w.queue
            && |w'.batch| < ChunkSize(c.batchSize)
    decreases |clock|
  {
    if clock != [] {
      var w1 := Step(c, w, clock[0], outcomes[0]);
      StepConserves(c, w, clock[0], outcomes[0]);
      StepKeepsBatchSmall(c, w, clock[0], outcomes[0]);
      RunConserves(c, w1, clock[1..], outcomes[1..]);
    }
  }

  /** Each iteration takes one record while any are queued, so N iterations
      empty a queue of N records (when nothing new arrives). */
  lemma {:induction false} RunDrains(c: Config, w: WorkerState, clock: seq<int>, outcomes: seq<bool>)
    requires |clock| == |outcomes| && |clock| >= |w.queue|
    ensures Run(c, w, clock, outcomes).queue == []
    decreases |clock|
  {
    if clock != [] {
      StepDequeuesFront(c, w, clock[0], outcomes[0]);
      RunDrains(c, Step(c, w, clock[0], outcomes[0]), clock[1..], outcomes[1..]);
    }
  }
}
