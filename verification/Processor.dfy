/** pkg/processor/processor.go: batching segments, copying their documents out, and returning their buffers. */
module Processors {
  import opened Common
  import opened BatchProcessors
  import opened BufferPools
  import opened Outcomes
  import opened RingBuffers

  /** The document of a segment, as its buffer holds it now. */
  ghost function CopyOf(ts: TraceSegment): Bytes
    reads ts.raw.store
  {
    if ts.raw.Valid() then ts.raw.Text() else []
  }

  /** The documents of a batch, as its buffers hold them now. */
  ghost function DocumentsOf(segments: seq<TraceSegment>): (docs: seq<Bytes>)
    reads set ts <- segments :: ts.raw.store
    ensures |docs| == |segments| && forall k :: 0 <= k < |docs| ==> docs[k] == CopyOf(segments[k])
  {
    seq(|segments|, k requires 0 <= k < |segments| reads set ts <- segments :: ts.raw.store => CopyOf(segments[k]))
  }

  /** The first places of a batch slice hold exactly these segments. */
  ghost predicate Shows(batch: array<Option<TraceSegment>>, segments: seq<TraceSegment>)
    reads batch
  {
    |segments| <= batch.Length && forall k :: 0 <= k < |segments| ==> batch[k] == Some(segments[k])
  }

  ghost predicate Sound(segments: seq<TraceSegment>) {
    forall k :: 0 <= k < |segments| ==> segments[k].raw.Valid() && NonEmpty(segments[k].poolBuf)
  }

  class Processor {
    const std: RingBuffer
    const pool: BufferPool
    const traceSegmentsBatch: SegmentsBatch
    const batchSize: nat
    const sendIdleTimeout: nat
    var count: nat
    // when the idle timer fires
    var idleTimer: int

    ghost predicate Valid()
      reads this, pool, traceSegmentsBatch
    {
      pool.Valid() && traceSegmentsBatch.Valid() && traceSegmentsBatch.capacity > 0
    }

    ghost function Limited(): Limits {
      Limits(pool.capacity, batchSize, traceSegmentsBatch.capacity)
    }

    /** The state in which the given segments are batched. */
    ghost function State(segments: seq<TraceSegment>): SelectState<Address, TraceSegment>
      reads this, std, pool, traceSegmentsBatch
    {
      SelectState(pool.Heads(), std.c, segments, traceSegmentsBatch.batches, traceSegmentsBatch.spillover, count,
                  traceSegmentsBatch.closed)
    }

    ghost function EventOf(idle: bool): Event
      reads std
    {
      if idle then TimerFires else if std.c != [] then SegmentArrives else RingClosed
    }

    constructor (std: RingBuffer, pool: BufferPool, traceSegmentsBatch: SegmentsBatch, batchSize: nat,
                 sendIdleTimeout: nat, now: int)
      ensures this.std == std && this.pool == pool && this.traceSegmentsBatch == traceSegmentsBatch
      ensures this.batchSize == batchSize && this.sendIdleTimeout == sendIdleTimeout
      ensures count == 0 && idleTimer == now + sendIdleTimeout
    {
      this.std, this.pool, this.traceSegmentsBatch := std, pool, traceSegmentsBatch;
      this.batchSize, this.sendIdleTimeout := batchSize, sendIdleTimeout;
      count, idleTimer := 0, now + sendIdleTimeout;
    }

    method SetIdleTimer(now: int)
      modifies this`idleTimer
      ensures idleTimer == now + sendIdleTimeout
    {
      idleTimer := now + sendIdleTimeout;
    }

    /** Clears the slice so that nothing keeps its segments alive. */
    method FlushBatch(batch: array<Option<TraceSegment>>, n: nat) returns (m: nat)
      requires n <= batch.Length
      modifies batch
      ensures m == 0 && (forall k :: 0 <= k < n ==> batch[k] == None) && batch[n..] == old(batch[n..])
    {
      for i := 0 to n
        invariant (forall k :: 0 <= k < i ==> batch[k] == None) && batch[n..] == old(batch[n..])
      {
        batch[i] := None;
      }
      m := 0;
    }

    /** One turn of the loop of sendBatchAsync: the document is copied, and only then is its buffer returned. */
    method CopyOut(batch: array<Option<TraceSegment>>, i: nat, docs: seq<Bytes>,
                   ghost segments: seq<TraceSegment>, ghost texts: seq<Bytes>)
      returns (segmentDocuments: seq<Bytes>)
      requires i < |segments| == |texts| && Shows(batch, segments) && Sound(segments) && pool.Valid()
      requires docs == texts[..i] && DocumentsOf(segments) == texts
      modifies pool
      ensures pool.Valid() && segmentDocuments == texts[..i + 1] && DocumentsOf(segments) == texts
      ensures pool.Heads() == Returned(old(pool.Heads()), pool.capacity, Names(HeadOf(), segments)[i])
    {
      var segment := batch[i].value;
      var document := segment.raw.Text();
      segmentDocuments := docs + [document];
      pool.Return(segment.poolBuf);
    }

    /** The loop of sendBatchAsync: each document is copied before its buffer goes back to the pool. */
    method CopyAndReturn(batch: array<Option<TraceSegment>>, n: nat, ghost segments: seq<TraceSegment>)
      returns (segmentDocuments: seq<Bytes>)
      requires |segments| == n && Shows(batch, segments) && Sound(segments) && pool.Valid()
      modifies pool
      ensures pool.Valid() && segmentDocuments == old(DocumentsOf(segments))
      ensures pool.Heads() == ReturnedAll(old(pool.Heads()), pool.capacity, Names(HeadOf(), segments), n)
    {
      segmentDocuments := [];
      ghost var before, heads, texts := pool.Heads(), Names(HeadOf(), segments), DocumentsOf(segments);
      for i := 0 to n
        invariant pool.Valid() && segmentDocuments == texts[..i] && DocumentsOf(segments) == texts
        invariant pool.Heads() == ReturnedAll(before, pool.capacity, heads, i)
      {
        segmentDocuments := CopyOut(batch, i, segmentDocuments, segments, texts);
      }
    }

    /** Queues the documents of the batch, re-arms the idle timer and empties the batch. */
    method SendBatchAsync(batch: array<Option<TraceSegment>>, n: nat, ghost segments: seq<TraceSegment>, now: int)
      returns (m: nat)
      requires |segments| == n && Shows(batch, segments) && Sound(segments) && Valid() && !traceSegmentsBatch.closed
      modifies batch, pool, traceSegmentsBatch`batches, traceSegmentsBatch`spillover, this`idleTimer
      ensures m == 0 && (forall k :: 0 <= k < n ==> batch[k] == None) && batch[n..] == old(batch[n..])
      ensures Valid() && idleTimer == now + sendIdleTimeout
      ensures State([]) == AfterSubmit(old(State(segments)), Limited(), HeadOf(), old(DocumentsOf(segments)))
    {
      var segmentDocuments := CopyAndReturn(batch, n, segments);
      traceSegmentsBatch.Send(segmentDocuments);
      SetIdleTimer(now);
      m := FlushBatch(batch, n);
    }

    /** Counts a segment and appends it to the batch. */
    method AddSegment(ts: TraceSegment, batch: array<Option<TraceSegment>>, n: nat, ghost segments: seq<TraceSegment>)
      returns (m: nat)
      requires |segments| == n < batch.Length && Shows(batch, segments)
      modifies batch, this`count
      ensures m == n + 1 && Shows(batch, segments + [ts]) && count == old(count) + 1
      ensures DocumentsOf(segments + [ts]) == old(DocumentsOf(segments + [ts]))
    {
      count := count + 1;
      batch[n] := Some(ts);
      m := n + 1;
    }

    /**
     Adds a segment to the batch, and sends the batch if it is full or the pool is empty. rest is what
     stays batched.
     */
    method ReceiveTraceSegment(ts: TraceSegment, batch: array<Option<TraceSegment>>, n: nat,
                               ghost segments: seq<TraceSegment>, now: int)
      returns (m: nat, ghost rest: seq<TraceSegment>)
      requires |segments| == n < batch.Length && Shows(batch, segments) && Sound(segments + [ts])
      requires Valid() && !traceSegmentsBatch.closed
      modifies batch, pool, traceSegmentsBatch`batches, traceSegmentsBatch`spillover, this`idleTimer, this`count
      ensures Valid() && m == |rest| && Shows(batch, rest)
      ensures var joined := old(State(segments)).(batch := segments + [ts], processed := old(count) + 1);
        if n + 1 >= batchSize || old(pool.buffers) == [] then
          && idleTimer == now + sendIdleTimeout
          && State(rest) == AfterSubmit(joined, Limited(), HeadOf(), old(DocumentsOf(segments + [ts])))
        else State(rest) == joined && idleTimer == old(idleTimer)
    {
      m := AddSegment(ts, batch, n, segments);
      rest := segments + [ts];
      var due := m >= batchSize;
      if !due {
        var buffersLen := pool.CurrentBuffersLen();
        due := buffersLen == 0;
      }
      if due {
        m := SendBatchAsync(batch, m, rest, now);
        rest := [];
      }
    }

    /** The idle timer has fired: a batch that is not empty is sent. */
    method SendIdle(batch: array<Option<TraceSegment>>, n: nat, ghost segments: seq<TraceSegment>, now: int)
      returns (m: nat, ghost rest: seq<TraceSegment>)
      requires |segments| == n && Shows(batch, segments) && Sound(segments) && Valid() && !traceSegmentsBatch.closed
      modifies batch, pool, traceSegmentsBatch`batches, traceSegmentsBatch`spillover, this`idleTimer
      ensures Valid() && m == |rest| && Shows(batch, rest) && idleTimer == now + sendIdleTimeout
      ensures rest == []
      ensures State(rest) == AfterSelect(old(State(segments)), Limited(), HeadOf(), TimerFires, old(DocumentsOf(segments)))
    {
      m, rest := 0, [];
      if n > 0 {
        m := SendBatchAsync(batch, n, segments, now);
      } else {
        SetIdleTimer(now);
      }
    }

    /** Takes the oldest segment off the ring. */
    method Dequeue(ghost segments: seq<TraceSegment>) returns (segment: TraceSegment)
      requires std.c != []
      modifies std`c
      ensures segment == old(std.c)[0] && std.c == old(std.c)[1..]
      ensures DocumentsOf(segments + [segment]) == old(DocumentsOf(segments + [std.c[0]]))
    {
      segment := std.c[0];
      std.c := std.c[1..];
    }

    /** One turn of the loop of poll: the idle timer's, or the ring's when it has a segment or is closed. */
    method PollOnce(idle: bool, batch: array<Option<TraceSegment>>, n: nat, ghost segments: seq<TraceSegment>, now: int)
      returns (m: nat, ghost rest: seq<TraceSegment>)
      requires |segments| == n < batchSize <= batch.Length && Shows(batch, segments)
      requires Sound(Batched(State(segments), EventOf(idle))) && Valid() && !traceSegmentsBatch.closed
      requires !std.Empty && (idle || std.c != [] || std.closed)
      modifies batch, pool, traceSegmentsBatch`batches, traceSegmentsBatch`spillover
      modifies this`idleTimer, this`count, std`c, std`Empty
      ensures Valid() && m == |rest| < batchSize && Shows(batch, rest)
      ensures State(rest)
           == AfterSelect(old(State(segments)), Limited(), HeadOf(), old(EventOf(idle)),
                          old(DocumentsOf(Batched(State(segments), EventOf(idle)))))
      ensures std.Empty <==> old(EventOf(idle)).RingClosed?
      ensures idleTimer
           == if idle || Submits(old(State(segments)), Limited(), old(EventOf(idle))) then now + sendIdleTimeout
              else old(idleTimer)
      ensures idle || (old(std.c) != [] && (n + 1 >= batchSize || old(pool.buffers) == [])) ==> m == 0
      ensures !idle && old(std.c) != [] && n + 1 < batchSize && old(pool.buffers) != [] ==>
        rest == segments + [old(std.c)[0]] && traceSegmentsBatch.batches == old(traceSegmentsBatch.batches)
    {
      ghost var before, event := State(segments), EventOf(idle);
      ghost var docs := DocumentsOf(Batched(before, event));
      m, rest := n, segments;
      if idle {
        m, rest := SendIdle(batch, n, segments, now);
        assert State(rest) == AfterSelect(before, Limited(), HeadOf(), event, docs);
      } else if std.c != [] {
        assert event == SegmentArrives;
        var segment := Dequeue(segments);
        assert Batched(before, event) == segments + [segment] && DocumentsOf(segments + [segment]) == docs;
        m, rest := ReceiveTraceSegment(segment, batch, n, segments, now);
        assert State(rest) == AfterSelect(before, Limited(), HeadOf(), event, docs);
      } else {
        std.Empty := true;
      }
    }

    /** What follows the loop: the last batch is sent and the queue closed. */
    method Finish(batch: array<Option<TraceSegment>>, n: nat, ghost segments: seq<TraceSegment>, now: int)
      requires |segments| == n && Shows(batch, segments) && Sound(segments) && Valid() && !traceSegmentsBatch.closed
      modifies batch, pool, traceSegmentsBatch`batches, traceSegmentsBatch`spillover, traceSegmentsBatch`closed
      modifies this`idleTimer
      ensures Valid()
      ensures State([]) == AfterLoop(old(State(segments)), Limited(), HeadOf(), old(DocumentsOf(segments)))
    {
      if n > 0 {
        var m := SendBatchAsync(batch, n, segments, now);
      }
      traceSegmentsBatch.Close();
    }
  }
}
