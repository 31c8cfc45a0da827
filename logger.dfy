/** `RequestLogger` (numenor_monitor/middlewares.py): a FIFO queue of captured
    records, drained into bulk inserts either synchronously (`process_batch`)
    or by a worker that batches by size and by time (`_process_queue`, whose
    loop body is `WorkerStep` here). */
module Logger {
  import opened Wrappers
  import opened Records
  import opened Storage
  import opened Batching

  /** A Python list of records, as `_flush_batch` receives it and empties in
      place. */
  class Batch {
    var items: seq<Request>

    constructor (items: seq<Request>)
      ensures this.items == items
    {
      this.items := items;
    }
  }

  class RequestLogger {
    var queue: seq<Request>
    var batchSize: int
    var flushInterval: int
    var lastFlush: int
    const sink: Sink

    /** `RequestLogger(batch_size=10, use_thread=..., flush_interval=60)`;
        `now` is the clock reading that initialises `last_flush`. */
    constructor (sink: Sink, now: int, batchSize: int := 10, flushInterval: int := 60)
      ensures this.sink == sink && queue == []
      ensures this.batchSize == batchSize && this.flushInterval == flushInterval
      ensures lastFlush == now
    {
      this.sink := sink;
      queue := [];
      this.batchSize := batchSize;
      this.flushInterval := flushInterval;
      lastFlush := now;
    }

    function Thresholds(): Config
      reads this
    {
      Config(batchSize, flushInterval)
    }

    /** The state one worker iteration works on, with `batch` as its buffer. */
    function WorkerView(batch: Batch): WorkerState
      reads this, batch, sink
    {
      WorkerState(queue, batch.items, lastFlush, sink.calls)
    }

    /** `log_request`: the record built from the arguments joins the back of
        the queue; nothing else changes. */
    method LogRequest(scheme: string, host: string, path: string, query: string,
                      httpMethod: Option<string>, ipAddress: Option<string>,
                      userAgent: string, user: Option<UserId>, username: string,
                      startAt: int, endAt: Option<int>, statusCode: int,
                      error: string, requestSize: int, responseSize: int)
      modifies this`queue
      ensures queue == old(queue) + [Request(scheme, host, path, query, httpMethod,
                                             ipAddress, userAgent, user, username,
                                             startAt, endAt, statusCode, error,
                                             requestSize, responseSize)]
    {
      var record := Request(scheme, host, path, query, httpMethod, ipAddress,
                            userAgent, user, username, startAt, endAt,
                            statusCode, error, requestSize, responseSize);
      queue := queue + [record];
    }

    /** `process_batch`: pops the queue into a local batch, inserting it each
        time it reaches `batch_size`, then inserts the rest. A failing insert
        raises out of the drain (`ok` false) and leaves the remaining records
        queued. Every record that left the queue went to the sink, in queue
        order, and the calls are the queue's chunks in order. */
    method ProcessBatch() returns (ok: bool)
      modifies this`queue, sink`calls
      ensures old(sink.calls) <= sink.calls
      ensures Attempted(sink.calls[|old(sink.calls)|..]) + queue == old(queue)
      ensures DrainCalls(old(queue), ChunkSize(batchSize), sink.calls[|old(sink.calls)|..], ok)
      ensures ok ==> queue == []
    {
      ghost var q0, c0 := queue, sink.calls;
      ghost var b := ChunkSize(batchSize);
      ghost var done: seq<Insert> := [];
      var batch: seq<Request> := [];
      DrainStart(q0, b);
      assert c0 + done == c0;
      while queue != []
        invariant sink.calls == c0 + done
        invariant DrainProgress(q0, b, done, batch, queue)
        invariant |batch| < b
      {
        DrainTake(q0, b, done, batch, queue);
        var item := queue[0];
        queue := queue[1..];
        batch := batch + [item];
        if |batch| >= batchSize {
          assert |batch| == b;
          ok := sink.BulkCreate(batch);
          if !ok {
            DrainChunkFails(q0, b, done, batch, queue);
            done := done + [Insert(batch, ok)];
            assert sink.calls == c0 + done;
            DrainLogged(q0, b, c0, done, queue, ok);
            return;
          }
          DrainNextChunk(q0, b, done, batch, queue);
          done := done + [Insert(batch, ok)];
          batch := [];
        }
      }
      if batch != [] {
        ok := sink.BulkCreate(batch);
        DrainLastChunk(q0, b, done, batch, ok);
        done := done + [Insert(batch, ok)];
      } else {
        ok := true;
        DrainNothingLeft(q0, b, done);
      }
      assert sink.calls == c0 + done;
      DrainLogged(q0, b, c0, done, queue, ok);
    }

    /** `_flush_batch`: one bulk insert of the whole batch; the batch is
        emptied in place whatever the outcome (records of a failed insert are
        dropped), and `last_flush` becomes `now` only on success. `ok` is false
        exactly when the error is logged. */
    method FlushBatch(batch: Batch, now: int) returns (ok: bool)
      modifies batch`items, sink`calls, this`lastFlush
      ensures batch.items == []
      ensures sink.calls == old(sink.calls) + [Insert(old(batch.items), ok)]
      ensures lastFlush == if ok then now else old(lastFlush)
      ensures WorkerView(batch) == Flush(old(WorkerView(batch)), now, ok)
    {
      ok := sink.BulkCreate(batch.items);
      batch.items := [];
      if ok {
        lastFlush := now;
      }
    }

    /** The body of the worker loop in `_process_queue`: take the oldest queued
        record, if any, into `batch` and flush on size; then flush on time.
        `now` is the clock reading; `ok` is the outcome of the flush, if one
        happened. The new state is `Step` of the old one, so the lemmas of
        Batching (conservation, the size bound, when a flush happens) hold of
        every iteration. */
    method WorkerStep(batch: Batch, now: int) returns (ok: bool)
      modifies this`queue, this`lastFlush, batch`items, sink`calls
      ensures WorkerView(batch) == Step(Thresholds(), old(WorkerView(batch)), now, ok)
      ensures old(|batch.items|) < ChunkSize(batchSize) ==> |batch.items| < ChunkSize(batchSize)
    {
      ghost var w0 := WorkerView(batch);
      ok := true;
      if queue != [] {
        var item := queue[0];
        queue := queue[1..];
        batch.items := batch.items + [item];
        if |batch.items| >= batchSize {
          ok := FlushBatch(batch, now);
        }
      }
      assert WorkerView(batch) == Receive(Thresholds(), w0, now, ok);
      if batch.items != [] && now - lastFlush > flushInterval * MICROS_PER_SECOND {
        ok := FlushBatch(batch, now);
      }
      if |w0.batch| < ChunkSize(batchSize) {
        StepKeepsBatchSmall(Thresholds(), w0, now, ok);
      }
    }
  }
}
