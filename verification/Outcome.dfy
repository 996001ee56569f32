/**
 What each turn of a goroutine does to pool, ring, batch and queue. The classes and the step system are
 both proved against these functions; K stands for the names of buffers, S for segments, and bufOf
 gives the buffer of a segment.
 */
module Outcomes {
  import opened Common
  import opened Util

  // The pool

  /** The list after a buffer is handed back: unchanged when it is already listed or the list is full. */
  function Returned<K(==)>(buffers: seq<K>, capacity: nat, k: K): seq<K> {
    if k in buffers || |buffers| >= capacity then buffers else buffers + [k]
  }

  /** The list after the first n of ks have been handed back in turn. */
  function ReturnedAll<K(==)>(buffers: seq<K>, capacity: nat, ks: seq<K>, n: nat): seq<K>
    requires n <= |ks|
  {
    if n == 0 then buffers else Returned(ReturnedAll(buffers, capacity, ks, n - 1), capacity, ks[n - 1])
  }

  // The ring

  /** A bounded queue after x has been forced into it. */
  function Pushed<T>(queue: seq<T>, capacity: nat, x: T): seq<T> {
    if queue == [] || |queue| < capacity then queue + [x] else queue[1..] + [x]
  }

  datatype RingState<K, S> = RingState(pool: seq<K>, ring: seq<S>, truncated: nat)

  /** Send: a full ring loses its oldest segment, whose buffer goes back to the pool of so many buffers. */
  ghost function AfterSend<K, S>(s: RingState<K, S>, buffers: nat, capacity: nat, bufOf: S -> K, x: S): RingState<K, S> {
    var fits := s.ring == [] || |s.ring| < capacity;
    RingState(if fits then s.pool else Returned(s.pool, buffers, bufOf(s.ring[0])),
              Pushed(s.ring, capacity, x),
              if fits then s.truncated else s.truncated + 1)
  }

  // A receiver

  /** How a read of the socket ends: with n bytes, with an error that passes, or with one that does not. */
  datatype ReadOutcome = Got(n: nat) | Temporary | Fatal

  /** A datagram that is not empty has been read. */
  predicate Arrives(outcome: ReadOutcome) {
    outcome.Got? && outcome.n > 0
  }

  /** The datagram has a nonempty body and a valid header. */
  predicate Acceptable(valid: Bytes -> bool, text: Bytes) {
    Body(text, NEWLINE) != [] && valid(Header(text, NEWLINE))
  }

  /** The pool, the ring, and what one receiver counts; signals are those it has sent to main. */
  datatype PollState<K, S> = PollState(
    shared: RingState<K, S>, received: nat, counted: nat, rejected: nat, overflowed: nat, signals: nat)

  /** The turn ends the receiver's loop: only a fatal read on a pool buffer does. */
  predicate Retires<K(==)>(pool: seq<K>, outcome: ReadOutcome) {
    outcome.Fatal? && pool != []
  }

  /** The turn sends a segment to the ring. */
  predicate Sends<K(==)>(pool: seq<K>, valid: Bytes -> bool, outcome: ReadOutcome, contents: Bytes)
    requires outcome.Got? ==> outcome.n <= |contents|
  {
    pool != [] && Arrives(outcome) && Acceptable(valid, contents[..outcome.n])
  }

  /** What follows a read into the fallback buffer. */
  ghost function AfterFallback<K, S>(s: PollState<K, S>, outcome: ReadOutcome): PollState<K, S> {
    var t := if Arrives(outcome) then s.(received := s.received + 1) else s;
    if Arrives(outcome) || outcome.Fatal? then t.(overflowed := s.overflowed + 1) else t
  }

  /** What follows a read of contents into buffer b; x is the segment made of it. */
  ghost function AfterPooled<K, S>(s: PollState<K, S>, b: K, buffers: nat, capacity: nat, bufOf: S -> K,
                                   valid: Bytes -> bool, outcome: ReadOutcome, contents: Bytes, x: S): PollState<K, S>
    requires outcome.Got? ==> outcome.n <= |contents|
  {
    if outcome.Fatal? then s
    else if !Arrives(outcome) then s.(shared := s.shared.(pool := Returned(s.shared.pool, buffers, b)))
    else AfterDatagram(s.(received := s.received + 1), b, buffers, capacity, bufOf, valid, contents[..outcome.n], x)
  }

  /** What becomes of a datagram in buffer b. */
  ghost function AfterDatagram<K, S>(s: PollState<K, S>, b: K, buffers: nat, capacity: nat, bufOf: S -> K,
                                     valid: Bytes -> bool, text: Bytes, x: S): PollState<K, S> {
    if Acceptable(valid, text) then
      s.(shared := AfterSend(s.shared, buffers, capacity, bufOf, x), counted := s.counted + 1)
    else
      s.(shared := s.shared.(pool := Returned(s.shared.pool, buffers, b)), rejected := s.rejected + 1)
  }

  /** A turn of the receive loop. contents is what the buffer holds after the read, x the segment made of it. */
  ghost function AfterPoll<K, S>(s: PollState<K, S>, buffers: nat, capacity: nat, bufOf: S -> K, valid: Bytes -> bool,
                                 outcome: ReadOutcome, contents: Bytes, x: S): PollState<K, S>
    requires outcome.Got? ==> outcome.n <= |contents|
  {
    var t := if outcome.Fatal? then s.(signals := s.signals + 1) else s;
    var pool := s.shared.pool;
    if pool == [] then AfterFallback(t, outcome)
    else
      AfterPooled(t.(shared := s.shared.(pool := pool[..|pool| - 1])), pool[|pool| - 1], buffers, capacity, bufOf, valid,
                  outcome, contents, x)
  }

  // The processor

  /** How many segments are dropped when a batch is forced into the queue. */
  function Dropped(queue: seq<seq<Bytes>>, capacity: nat): nat {
    if |queue| < capacity || queue == [] then 0 else |queue[0]|
  }

  datatype Limits = Limits(buffers: nat, batchSize: int, queue: nat)

  datatype SelectState<K, S> = SelectState(
    pool: seq<K>, ring: seq<S>, batch: seq<S>, queue: seq<seq<Bytes>>, spilled: nat, processed: nat, closed: bool)

  /** What the processor's select finds. */
  datatype Event = SegmentArrives | TimerFires | RingClosed

  ghost function Names<K, S>(bufOf: S -> K, segs: seq<S>): (ks: seq<K>)
    ensures |ks| == |segs| && forall k :: 0 <= k < |ks| ==> ks[k] == bufOf(segs[k])
  {
    seq(|segs|, k requires 0 <= k < |segs| => bufOf(segs[k]))
  }

  /** The batch with the segment that has arrived, if any. */
  ghost function Batched<K, S>(s: SelectState<K, S>, event: Event): seq<S>
    requires event.SegmentArrives? ==> s.ring != []
  {
    if event.SegmentArrives? then s.batch + [s.ring[0]] else s.batch
  }

  /** The batch is sent: it is full, the pool is empty, or the idle timer has fired. */
  ghost predicate Submits<K, S>(s: SelectState<K, S>, limits: Limits, event: Event)
    requires event.SegmentArrives? ==> s.ring != []
  {
    match event
    case SegmentArrives => |s.batch| + 1 >= limits.batchSize || s.pool == []
    case TimerFires => s.batch != []
    case RingClosed => false
  }

  /** sendBatchAsync, with the documents of the batch. */
  ghost function AfterSubmit<K, S>(s: SelectState<K, S>, limits: Limits, bufOf: S -> K, docs: seq<Bytes>): SelectState<K, S> {
    s.(pool := ReturnedAll(s.pool, limits.buffers, Names(bufOf, s.batch), |s.batch|), batch := [],
       queue := Pushed(s.queue, limits.queue, docs), spilled := s.spilled + Dropped(s.queue, limits.queue))
  }

  /** A turn of the processor's loop. docs are the documents of the batch, if it is sent. */
  ghost function AfterSelect<K, S>(s: SelectState<K, S>, limits: Limits, bufOf: S -> K, event: Event, docs: seq<Bytes>):
      SelectState<K, S>
    requires event.SegmentArrives? ==> s.ring != []
  {
    var t := if event.SegmentArrives? then s.(ring := s.ring[1..], batch := Batched(s, event), processed := s.processed + 1)
             else s;
    if Submits(s, limits, event) then AfterSubmit(t, limits, bufOf, docs) else t
  }

  /** What follows the loop: the last batch is sent, and the queue closed. */
  ghost function AfterLoop<K, S>(s: SelectState<K, S>, limits: Limits, bufOf: S -> K, docs: seq<Bytes>): SelectState<K, S> {
    (if s.batch != [] then AfterSubmit(s, limits, bufOf, docs) else s).(closed := true)
  }

  // A poller

  /** What PutTraceSegments comes back with: the ids of unprocessed segments, some of which may be nil, or an error. */
  datatype PutResult = Uploaded(unprocessed: seq<Option<string>>) | Failed

  /** How many unprocessed segments are counted as rejected: all up to and including the first without an id. */
  function Rejections(ids: seq<Option<string>>): (n: nat)
    ensures n <= |ids|
    ensures forall k :: 0 <= k < n - 1 ==> ids[k].Some?
    ensures n == |ids| || (n > 0 && ids[n - 1].None?)
  {
    if ids == [] then 0 else if ids[0].None? then 1 else 1 + Rejections(ids[1..])
  }

  /** failed counts the segments of the batches that could not be uploaded. */
  datatype UploadState = UploadState(queue: seq<seq<Bytes>>, sent: nat, rejected: nat, failed: nat, finished: bool)

  /** A turn of a poller, when the queue has a batch or is closed. */
  ghost function AfterUpload(s: UploadState, result: PutResult): UploadState {
    if s.queue == [] then s.(finished := true)
    else
      var t := s.(queue := s.queue[1..]);
      match result
      case Uploaded(ids) => t.(sent := s.sent + |s.queue[0]|, rejected := s.rejected + Rejections(ids))
      case Failed => t.(failed := s.failed + |s.queue[0]|)
  }
}
