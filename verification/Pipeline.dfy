/**
 The segment pipeline of the daemon as a step system: any number of receivers, the processor, any
 number of batch pollers, the main goroutine and the telemetry goroutine, interleaved one channel
 operation or pool call at a time. A buffer is named by a number below Config.buffers.
 */
module Pipeline {
  import opened Common
  import opened Util
  import Outcomes
  import RingBuffers

  /** What initDaemon wires together; valid decides whether header bytes decode to a valid header. */
  datatype Config = Config(buffers: nat, bufferSize: nat, receivers: nat, pollers: nat,
                           batchLimit: nat, queueCapacity: nat, valid: Bytes -> bool)
  {
    function RingCapacity(): int {
      RingBuffers.ChannelSize(buffers)
    }

    function BatchSize(): int {
      Min(batchLimit, buffers)
    }

    ghost predicate Wired() {
      buffers > 0 && bufferSize > 0 && batchLimit > 0 && queueCapacity > 0
    }
  }

  /** A queued segment: bytes lo..hi of a pool buffer it does not copy. */
  datatype Segment = Segment(buf: nat, lo: nat, hi: nat)

  /** Where a receiver stands in its loop. datagram is history: the bytes the socket delivered. */
  datatype Receiver =
    | Fetching
    | Reading(b: nat) | ReadingFallback
    | Signalling(b: nat) | SignallingFallback
    | Discarding(b: nat)
    | Overflowing
    | Parsing(b: nat, n: nat, datagram: Bytes)
    | Rejecting(b: nat)
    | Sending(seg: Segment, datagram: Bytes)
    | Evicting(seg: Segment, datagram: Bytes)
    | Recycling(evicted: nat, seg: Segment, datagram: Bytes)
    | Retired(b: nat)

  /** Where the processor stands. last says that the ring has been seen closed. */
  datatype Processor =
    | Selecting
    | Inspecting
    | Copying(k: nat, docs: seq<Bytes>, last: bool)
    | Releasing(k: nat, docs: seq<Bytes>, last: bool)
    | Offering(docs: seq<Bytes>, tries: nat, last: bool)
    | Shedding(docs: seq<Bytes>, tries: nat, last: bool)
    | Rearming(last: bool)
    | ClosingQueue
    | Joining(joined: nat)
    | ProcessorExited

  datatype Poller = Idle | Putting(batch: seq<Bytes>) | Reporting | Gone

  datatype Main = Waiting(signalled: nat) | Quitting | AwaitingProcessor | AwaitingTelemetry | Finished

  datatype Telemetry = Asleep | Pushing(quit: bool) | Announcing | Ended

  /**
   What the receivers share. received is the telemetry count, counted is Daemon.count, truncated is
   the ring's count. early and pushed are history: whether a fatal read came before the socket was
   closed, and the bodies of the datagrams put on the ring, in order.
   */
  datatype Front = Front(
    pool: seq<nat>, mem: seq<Bytes>, ring: seq<Segment>, ringClosed: bool,
    main: Main, stopped: bool, panicked: bool,
    received: nat, counted: nat, rejected: nat, overflowed: nat, fatalFallbacks: nat, truncated: nat,
    early: bool, pushed: seq<Bytes>)

  /**
   What the processor and the pollers share. processed is Processor.count; sent and unprocessed are
   telemetry counts. out is history: the batches taken off the queue, in order.
   */
  datatype Back = Back(
    processor: Processor, batch: seq<Segment>, queue: seq<seq<Bytes>>, queueClosed: bool, pollers: seq<Poller>,
    processed: nat, shed: nat, sent: nat, failed: nat, unprocessed: nat,
    out: seq<seq<Bytes>>)

  /** signals is history: how often each receiver has signalled done. */
  datatype State = State(front: Front, receivers: seq<Receiver>, signals: seq<nat>, back: Back, telemetry: Telemetry)

  // The steps, one for each branch the code can take.

  datatype ReceiverStep =
    | FetchBuffer | FetchNone
    | ReadDatagram(n: nat, contents: Bytes) | ReadNothing(contents: Bytes) | ReadFatal
    | OverflowDatagram | OverflowNothing | OverflowFatal
    | SignalAndRetire | SignalOverflow
    | Discard | CountOverflow | Accept | Refuse | Reject
    | Send | SendFindsFull | SendOnClosed
    | Evict | EvictNone | EvictOnClosed | Recycle

  datatype ProcessorStep =
    | TakeSegment | TakeLastSegment | IdleRearm | IdleFlush | CloseSeen | CloseSeenFlush
    | PoolHasBuffers | PoolIsEmpty
    | Copy | CopyDone | Release
    | Offer | OfferFindsFull | OfferOnClosed | Shed | ShedNone
    | Rearm | RearmLast | CloseQueue | JoinPoller(j: nat) | AnnounceDone

  datatype PollerStep = TakeBatch | PutSucceeded(unprocessed: nat) | PutFailed | QueueCloseSeen

  datatype ControlStep =
    | StopSocket | CloseRing | QuitTelemetry | TelemetryTick | TelemetryPushed | TelemetryLastPushed | TelemetryDone

  datatype Action =
    | ByReceiver(i: nat, receiverStep: ReceiverStep)
    | ByProcessor(processorStep: ProcessorStep)
    | ByPoller(j: nat, pollerStep: PollerStep)
    | ByControl(controlStep: ControlStep)

  ghost predicate MemoryShape(c: Config, mem: seq<Bytes>) {
    |mem| == c.buffers && forall b :: 0 <= b < |mem| ==> |mem[b]| == c.bufferSize
  }

  ghost predicate SegmentShape(c: Config, seg: Segment) {
    seg.buf < c.buffers && seg.lo <= seg.hi <= c.bufferSize
  }

  ghost predicate ReceiverShape(c: Config, r: Receiver) {
    match r
    case Fetching => true
    case ReadingFallback => true
    case SignallingFallback => true
    case Reading(b) => b < c.buffers
    case Signalling(b) => b < c.buffers
    case Discarding(b) => b < c.buffers
    case Overflowing => true
    case Parsing(b, n, _) => b < c.buffers && n <= c.bufferSize
    case Rejecting(b) => b < c.buffers
    case Sending(seg, _) => SegmentShape(c, seg)
    case Evicting(seg, _) => SegmentShape(c, seg)
    case Recycling(evicted, seg, _) => evicted < c.buffers && SegmentShape(c, seg)
    case Retired(b) => b < c.buffers
  }

  ghost predicate SegmentsShape(c: Config, segs: seq<Segment>) {
    forall k :: 0 <= k < |segs| ==> SegmentShape(c, segs[k])
  }

  ghost predicate PoolShape(c: Config, pool: seq<nat>) {
    forall k :: 0 <= k < |pool| ==> pool[k] < c.buffers
  }

  ghost predicate FrontShape(c: Config, f: Front) {
    && MemoryShape(c, f.mem) && PoolShape(c, f.pool) && SegmentsShape(c, f.ring)
    && (f.main.Waiting? ==> f.main.signalled <= c.receivers)
  }

  ghost predicate ReceiversShape(c: Config, receivers: seq<Receiver>) {
    |receivers| == c.receivers && forall i :: 0 <= i < |receivers| ==> ReceiverShape(c, receivers[i])
  }

  ghost predicate BackShape(c: Config, b: Back) {
    && SegmentsShape(c, b.batch) && |b.pollers| == c.pollers
    && match b.processor
       case Copying(k, _, _) => k <= |b.batch|
       case Releasing(k, _, _) => k < |b.batch|
       case Joining(k) => k <= c.pollers
       case _ => true
  }

  /** Sizes and indices are in range, so that every step is defined. */
  ghost predicate Shape(c: Config, s: State) {
    FrontShape(c, s.front) && ReceiversShape(c, s.receivers) && |s.signals| == c.receivers && BackShape(c, s.back)
  }

  /** The bytes a segment stands for. */
  ghost function Document(c: Config, mem: seq<Bytes>, seg: Segment): Bytes
    requires MemoryShape(c, mem) && SegmentShape(c, seg)
  {
    mem[seg.buf][seg.lo..seg.hi]
  }

  ghost function InitFront(c: Config): Front {
    Front(Numbers(c.buffers), seq(c.buffers, b => seq(c.bufferSize, k => 0)), [], false,
          Waiting(0), false, false, 0, 0, 0, 0, 0, 0, false, [])
  }

  ghost function InitBack(c: Config): Back {
    Back(Selecting, [], [], false, seq(c.pollers, j => Idle), 0, 0, 0, 0, 0, [])
  }

  ghost function Init(c: Config): (s: State)
    ensures Shape(c, s)
  {
    State(InitFront(c), seq(c.receivers, i => Fetching), seq(c.receivers, i => 0), InitBack(c), Asleep)
  }

  /** The datagram has a nonempty body and a valid header. */
  ghost predicate Acceptable(c: Config, text: Bytes) {
    Outcomes.Acceptable(c.valid, text)
  }

  /** The part of buffer b that holds the body of the text it starts with. */
  ghost function BodySegment(c: Config, b: nat, text: Bytes): (seg: Segment)
    requires b < c.buffers && Acceptable(c, text) && |text| <= c.bufferSize
    ensures SegmentShape(c, seg) && seg.buf == b
  {
    Segment(b, HeaderEnd(text, NEWLINE) + 1, |text|)
  }

  /** The branch is one that a receiver standing at r can take next. */
  ghost predicate ReceiverEnabled(c: Config, f: Front, r: Receiver, step: ReceiverStep)
    requires FrontShape(c, f) && ReceiverShape(c, r)
  {
    match step
    case FetchBuffer => r.Fetching? && f.pool != []
    case FetchNone => r.Fetching? && f.pool == []
    case ReadDatagram(n, contents) => r.Reading? && !f.stopped && |contents| == c.bufferSize && 0 < n <= c.bufferSize
    // also a read that fails with a temporary error, which may scribble on the buffer
    case ReadNothing(contents) => r.Reading? && !f.stopped && |contents| == c.bufferSize
    case ReadFatal => r.Reading?
    case OverflowDatagram => r.ReadingFallback? && !f.stopped
    case OverflowNothing => r.ReadingFallback? && !f.stopped
    case OverflowFatal => r.ReadingFallback?
    case SignalAndRetire => r.Signalling? && f.main.Waiting? && f.main.signalled < c.receivers
    case SignalOverflow => r.SignallingFallback? && f.main.Waiting? && f.main.signalled < c.receivers
    case Discard => r.Discarding?
    case CountOverflow => r.Overflowing?
    case Accept => r.Parsing? && Acceptable(c, f.mem[r.b][..r.n])
    case Refuse => r.Parsing? && !Acceptable(c, f.mem[r.b][..r.n])
    case Reject => r.Rejecting?
    case Send => r.Sending? && !f.ringClosed && |f.ring| < c.RingCapacity()
    case SendFindsFull => r.Sending? && !f.ringClosed && |f.ring| >= c.RingCapacity()
    case SendOnClosed => r.Sending? && f.ringClosed
    case Evict => r.Evicting? && f.ring != []
    case EvictNone => r.Evicting? && f.ring == [] && !f.ringClosed
    case EvictOnClosed => r.Evicting? && f.ring == [] && f.ringClosed
    case Recycle => r.Recycling?
  }

  /** What becomes of the shared front, and where the receiver goes. */
  datatype Move = Move(front: Front, next: Receiver)

  /** What a receiver does next: poll and read of the daemon, Send of the ring buffer. */
  ghost function ReceiverMove(c: Config, f: Front, r: Receiver, step: ReceiverStep): Move
    requires FrontShape(c, f) && ReceiverShape(c, r) && ReceiverEnabled(c, f, r, step)
  {
    match step
    case FetchBuffer => Move(f.(pool := f.pool[..|f.pool| - 1]), Reading(f.pool[|f.pool| - 1]))
    case FetchNone => Move(f, ReadingFallback)
    case ReadDatagram(n, contents) =>
      Move(f.(mem := f.mem[r.b := contents], received := f.received + 1), Parsing(r.b, n, contents[..n]))
    case ReadNothing(contents) => Move(f.(mem := f.mem[r.b := contents]), Discarding(r.b))
    case ReadFatal => Move(f.(early := f.early || !f.stopped), Signalling(r.b))
    case OverflowDatagram => Move(f.(received := f.received + 1), Overflowing)
    case OverflowNothing => Move(f, Fetching)
    case OverflowFatal => Move(f.(early := f.early || !f.stopped), SignallingFallback)
    case SignalAndRetire => Move(f.(main := Waiting(f.main.signalled + 1)), Retired(r.b))
    case SignalOverflow =>
      Move(f.(main := Waiting(f.main.signalled + 1), fatalFallbacks := f.fatalFallbacks + 1), Overflowing)
    case Discard => Move(f.(pool := Outcomes.Returned(f.pool, c.buffers, r.b)), Fetching)
    case CountOverflow => Move(f.(overflowed := f.overflowed + 1), Fetching)
    case Accept => Move(f.(counted := f.counted + 1), Sending(BodySegment(c, r.b, f.mem[r.b][..r.n]), r.datagram))
    case Refuse => Move(f, Rejecting(r.b))
    case Reject =>
      Move(f.(pool := Outcomes.Returned(f.pool, c.buffers, r.b), rejected := f.rejected + 1), Fetching)
    case Send => Move(f.(ring := f.ring + [r.seg], pushed := f.pushed + [Body(r.datagram, NEWLINE)]), Fetching)
    case SendFindsFull => Move(f, Evicting(r.seg, r.datagram))
    case SendOnClosed => Move(f.(panicked := true), r)
    case Evict => Move(f.(ring := f.ring[1..], truncated := f.truncated + 1), Recycling(f.ring[0].buf, r.seg, r.datagram))
    case EvictNone => Move(f, Sending(r.seg, r.datagram))
    case EvictOnClosed => Move(f.(panicked := true), r)
    case Recycle => Move(f.(pool := Outcomes.Returned(f.pool, c.buffers, r.evicted)), Sending(r.seg, r.datagram))
  }

  ghost predicate Signals(step: ReceiverStep) {
    step.SignalAndRetire? || step.SignalOverflow?
  }

  ghost function ReceiverApply(c: Config, s: State, i: nat, step: ReceiverStep): State
    requires Shape(c, s) && i < |s.receivers| && ReceiverEnabled(c, s.front, s.receivers[i], step)
  {
    var m := ReceiverMove(c, s.front, s.receivers[i], step);
    s.(front := m.front, receivers := s.receivers[i := m.next],
       signals := if Signals(step) then s.signals[i := s.signals[i] + 1] else s.signals)
  }

  /** The branch is one the processor can take next. */
  ghost predicate ProcessorEnabled(c: Config, f: Front, b: Back, step: ProcessorStep) {
    var p := b.processor;
    match step
    case TakeSegment => p.Selecting? && f.ring != [] && |b.batch| + 1 < c.BatchSize()
    case TakeLastSegment => p.Selecting? && f.ring != [] && |b.batch| + 1 >= c.BatchSize()
    case IdleRearm => p.Selecting? && b.batch == []
    case IdleFlush => p.Selecting? && b.batch != []
    case CloseSeen => p.Selecting? && f.ring == [] && f.ringClosed && b.batch == []
    case CloseSeenFlush => p.Selecting? && f.ring == [] && f.ringClosed && b.batch != []
    case PoolHasBuffers => p.Inspecting? && f.pool != []
    case PoolIsEmpty => p.Inspecting? && f.pool == []
    case Copy => p.Copying? && p.k < |b.batch|
    case CopyDone => p.Copying? && p.k == |b.batch|
    case Release => p.Releasing?
    case Offer => p.Offering? && !b.queueClosed && |b.queue| < c.queueCapacity
    case OfferFindsFull => p.Offering? && !b.queueClosed && |b.queue| >= c.queueCapacity
    case OfferOnClosed => p.Offering? && b.queueClosed
    case Shed => p.Shedding? && b.queue != []
    case ShedNone => p.Shedding? && b.queue == []
    case Rearm => p.Rearming? && !p.last
    case RearmLast => p.Rearming? && p.last
    case CloseQueue => p.ClosingQueue?
    case JoinPoller(j) => p.Joining? && p.joined < c.pollers && j < |b.pollers| && b.pollers[j].Reporting?
    case AnnounceDone => p == Joining(c.pollers) && f.main.AwaitingProcessor?
  }

  /** What the processor does next: poll, receiveTraceSegment, sendBatchAsync and send. */
  ghost function ProcessorBack(c: Config, f: Front, b: Back, step: ProcessorStep): Back
    requires FrontShape(c, f) && BackShape(c, b) && ProcessorEnabled(c, f, b, step)
  {
    var p := b.processor;
    match step
    case TakeSegment => Taken(b, f.ring[0]).(processor := Inspecting)
    case TakeLastSegment => Taken(b, f.ring[0]).(processor := Copying(0, [], false))
    case IdleRearm => b
    case IdleFlush => b.(processor := Copying(0, [], false))
    case CloseSeen => b.(processor := ClosingQueue)
    case CloseSeenFlush => b.(processor := Copying(0, [], true))
    case PoolHasBuffers => b.(processor := Selecting)
    case PoolIsEmpty => b.(processor := Copying(0, [], false))
    case Copy => b.(processor := Releasing(p.k, p.docs + [Document(c, f.mem, b.batch[p.k])], p.last))
    case CopyDone => b.(processor := Offering(p.docs, 1, p.last))
    case Release => b.(processor := Copying(p.k + 1, p.docs, p.last))
    case Offer => b.(queue := b.queue + [p.docs], processor := Rearming(p.last))
    case OfferFindsFull => b.(processor := Shedding(p.docs, p.tries, p.last))
    case OfferOnClosed => b
    case Shed => Dequeued(b).(shed := b.shed + |b.queue[0]|, processor := Offering(p.docs, p.tries + 1, p.last))
    case ShedNone => b.(processor := Offering(p.docs, p.tries + 1, p.last))
    case Rearm => b.(batch := [], processor := Selecting)
    case RearmLast => b.(batch := [], processor := ClosingQueue)
    case CloseQueue => b.(queueClosed := true, processor := Joining(0))
    case JoinPoller(j) => b.(pollers := b.pollers[j := Gone], processor := Joining(p.joined + 1))
    case AnnounceDone => b.(processor := ProcessorExited)
  }

  /** A segment joins the batch. */
  ghost function Taken(b: Back, seg: Segment): Back {
    b.(batch := b.batch + [seg], processed := b.processed + 1)
  }

  /** The oldest batch leaves the queue. */
  ghost function Dequeued(b: Back): Back
    requires b.queue != []
  {
    b.(queue := b.queue[1..], out := b.out + [b.queue[0]])
  }

  /** What the processor's step does to the front. */
  ghost function ProcessorFront(c: Config, f: Front, b: Back, step: ProcessorStep): Front
    requires FrontShape(c, f) && BackShape(c, b) && ProcessorEnabled(c, f, b, step)
  {
    match step
    case TakeSegment => f.(ring := f.ring[1..])
    case TakeLastSegment => f.(ring := f.ring[1..])
    case Release => f.(pool := Outcomes.Returned(f.pool, c.buffers, b.batch[b.processor.k].buf))
    case OfferOnClosed => f.(panicked := true)
    case AnnounceDone => f.(main := AwaitingTelemetry)
    case _ => f
  }

  ghost function ProcessorApply(c: Config, s: State, step: ProcessorStep): State
    requires Shape(c, s) && ProcessorEnabled(c, s.front, s.back, step)
  {
    s.(front := ProcessorFront(c, s.front, s.back, step), back := ProcessorBack(c, s.front, s.back, step))
  }

  ghost predicate PollerEnabled(b: Back, j: nat, step: PollerStep) {
    && j < |b.pollers|
    && match step
       case TakeBatch => b.pollers[j].Idle? && b.queue != []
       case PutSucceeded(_) => b.pollers[j].Putting?
       case PutFailed => b.pollers[j].Putting?
       case QueueCloseSeen => b.pollers[j].Idle? && b.queue == [] && b.queueClosed
  }

  /** What batch poller j does next. */
  ghost function PollerBack(b: Back, j: nat, step: PollerStep): Back
    requires PollerEnabled(b, j, step)
  {
    match step
    case TakeBatch => Dequeued(b).(pollers := b.pollers[j := Putting(b.queue[0])])
    case PutSucceeded(unprocessed) =>
      b.(pollers := b.pollers[j := Idle], sent := b.sent + |b.pollers[j].batch|, unprocessed := b.unprocessed + unprocessed)
    case PutFailed => b.(pollers := b.pollers[j := Idle], failed := b.failed + |b.pollers[j].batch|)
    case QueueCloseSeen => b.(pollers := b.pollers[j := Reporting])
  }

  ghost predicate ControlEnabled(c: Config, s: State, step: ControlStep) {
    match step
    case StopSocket => !s.front.stopped
    case CloseRing => s.front.main == Waiting(c.receivers)
    case QuitTelemetry => s.front.main.Quitting? && s.telemetry.Asleep?
    case TelemetryTick => s.telemetry.Asleep?
    case TelemetryPushed => s.telemetry == Pushing(false)
    case TelemetryLastPushed => s.telemetry == Pushing(true)
    case TelemetryDone => s.telemetry.Announcing? && s.front.main.AwaitingTelemetry?
  }

  /** stop and close of the daemon, and the loop of the telemetry goroutine. */
  ghost function ControlApply(c: Config, s: State, step: ControlStep): State
    requires ControlEnabled(c, s, step)
  {
    var f := s.front;
    match step
    case StopSocket => s.(front := f.(stopped := true))
    case CloseRing => s.(front := f.(ringClosed := true, main := Quitting))
    case QuitTelemetry => s.(front := f.(main := AwaitingProcessor), telemetry := Pushing(true))
    case TelemetryTick => s.(telemetry := Pushing(false))
    case TelemetryPushed => s.(telemetry := Asleep)
    case TelemetryLastPushed => s.(telemetry := Announcing)
    case TelemetryDone => s.(front := f.(main := Finished), telemetry := Ended)
  }

  /** After a panic nothing runs. */
  ghost predicate Enabled(c: Config, s: State, a: Action)
    requires Shape(c, s)
  {
    && !s.front.panicked
    && match a
       case ByReceiver(i, step) => i < |s.receivers| && ReceiverEnabled(c, s.front, s.receivers[i], step)
       case ByProcessor(step) => ProcessorEnabled(c, s.front, s.back, step)
       case ByPoller(j, step) => PollerEnabled(s.back, j, step)
       case ByControl(step) => ControlEnabled(c, s, step)
  }

  ghost function Apply(c: Config, s: State, a: Action): State
    requires Shape(c, s) && Enabled(c, s, a)
  {
    match a
    case ByReceiver(i, step) => ReceiverApply(c, s, i, step)
    case ByProcessor(step) => ProcessorApply(c, s, step)
    case ByPoller(j, step) => s.(back := PollerBack(s.back, j, step))
    case ByControl(step) => ControlApply(c, s, step)
  }

  // Every step stays in shape.

  lemma ReceiverFrontKeepsShape(c: Config, f: Front, r: Receiver, step: ReceiverStep)
    requires FrontShape(c, f) && ReceiverShape(c, r) && ReceiverEnabled(c, f, r, step)
    ensures FrontShape(c, ReceiverMove(c, f, r, step).front)
  {
    match step
    case FetchBuffer =>
    case ReadDatagram(_, _) =>
    case ReadNothing(_) =>
    case Discard =>
    case Reject =>
    case Send =>
    case Evict =>
    case Recycle =>
    case _ =>
  }

  lemma ReceiverNextKeepsShape(c: Config, f: Front, r: Receiver, step: ReceiverStep)
    requires FrontShape(c, f) && ReceiverShape(c, r) && ReceiverEnabled(c, f, r, step)
    ensures ReceiverShape(c, ReceiverMove(c, f, r, step).next)
  {
    match step
    case FetchBuffer =>
    case Accept =>
    case Evict =>
    case _ =>
  }

  lemma ReceiverMoveKeepsShape(c: Config, f: Front, r: Receiver, step: ReceiverStep)
    requires FrontShape(c, f) && ReceiverShape(c, r) && ReceiverEnabled(c, f, r, step)
    ensures FrontShape(c, ReceiverMove(c, f, r, step).front) && ReceiverShape(c, ReceiverMove(c, f, r, step).next)
  {
    ReceiverFrontKeepsShape(c, f, r, step);
    ReceiverNextKeepsShape(c, f, r, step);
  }

  lemma ReceiverApplyKeepsShape(c: Config, s: State, i: nat, step: ReceiverStep)
    requires Shape(c, s) && i < |s.receivers| && ReceiverEnabled(c, s.front, s.receivers[i], step)
    ensures Shape(c, ReceiverApply(c, s, i, step))
  {
    ReceiverMoveKeepsShape(c, s.front, s.receivers[i], step);
  }

  lemma ProcessorBackKeepsShape(c: Config, f: Front, b: Back, step: ProcessorStep)
    requires FrontShape(c, f) && BackShape(c, b) && ProcessorEnabled(c, f, b, step)
    ensures BackShape(c, ProcessorBack(c, f, b, step))
  {
    match step
    case TakeSegment =>
    case TakeLastSegment =>
    case Copy =>
    case Release =>
    case JoinPoller(_) =>
    case _ =>
  }

  lemma ProcessorFrontKeepsShape(c: Config, f: Front, b: Back, step: ProcessorStep)
    requires FrontShape(c, f) && BackShape(c, b) && ProcessorEnabled(c, f, b, step)
    ensures FrontShape(c, ProcessorFront(c, f, b, step))
  {
    match step
    case TakeSegment =>
    case TakeLastSegment =>
    case Release =>
    case _ =>
  }

  lemma ProcessorApplyKeepsShape(c: Config, s: State, step: ProcessorStep)
    requires Shape(c, s) && ProcessorEnabled(c, s.front, s.back, step)
    ensures Shape(c, ProcessorApply(c, s, step))
  {
    ProcessorBackKeepsShape(c, s.front, s.back, step);
    ProcessorFrontKeepsShape(c, s.front, s.back, step);
  }

  lemma ApplyKeepsShape(c: Config, s: State, a: Action)
    requires Shape(c, s) && Enabled(c, s, a)
    ensures Shape(c, Apply(c, s, a))
  {
    match a
    case ByReceiver(i, step) => ReceiverApplyKeepsShape(c, s, i, step);
    case ByProcessor(step) => ProcessorApplyKeepsShape(c, s, step);
    case ByPoller(j, step) =>
    case ByControl(step) =>
  }

  /** The counts and the history of the receivers change by their own steps only. */
  lemma OthersKeepFront(c: Config, s: State, a: Action)
    requires Shape(c, s) && Enabled(c, s, a) && !a.ByReceiver?
    ensures var f, g := s.front, Apply(c, s, a).front;
      && Apply(c, s, a).receivers == s.receivers && Apply(c, s, a).signals == s.signals
      && g.received == f.received && g.counted == f.counted && g.rejected == f.rejected && g.overflowed == f.overflowed
      && g.truncated == f.truncated && g.fatalFallbacks == f.fatalFallbacks
      && g.pushed == f.pushed && g.early == f.early && (f.stopped ==> g.stopped)
  {
    match a
    case ByProcessor(step) => ProcessorKeepsFront(c, s.front, s.back, step);
    case ByPoller(_, _) =>
    case ByControl(_) =>
  }

  lemma ProcessorKeepsFront(c: Config, f: Front, b: Back, step: ProcessorStep)
    requires FrontShape(c, f) && BackShape(c, b) && ProcessorEnabled(c, f, b, step)
    ensures var g := ProcessorFront(c, f, b, step);
      g == f.(pool := g.pool, ring := g.ring, panicked := g.panicked, main := g.main)
  {
  }

  /** The state that a run from s ends in, or None when some action of it was not enabled. */
  ghost function After(c: Config, s: State, run: seq<Action>): (r: Option<State>)
    requires Shape(c, s)
    ensures r.Some? ==> Shape(c, r.value)
  {
    if run == [] then Some(s)
    else
      var last := run[|run| - 1];
      match After(c, s, run[..|run| - 1])
      case None => None
      case Some(t) =>
        if Enabled(c, t, last) then
          ApplyKeepsShape(c, t, last);
          Some(Apply(c, t, last))
        else None
  }

  /** A run is its last action after the shorter run before it. */
  lemma LastStep(c: Config, s: State, run: seq<Action>) returns (shorter: seq<Action>, t: State, a: Action)
    requires Shape(c, s) && run != [] && After(c, s, run).Some?
    ensures run == shorter + [a] && |shorter| == |run| - 1
    ensures After(c, s, shorter) == Some(t) && Shape(c, t) && Enabled(c, t, a)
    ensures After(c, s, run) == Some(Apply(c, t, a))
  {
    shorter, a := run[..|run| - 1], run[|run| - 1];
    t := After(c, s, shorter).value;
  }

  /** A run can go on with any action that is enabled where it ends. */
  lemma OneMore(c: Config, s: State, run: seq<Action>, t: State, a: Action)
    requires Shape(c, s) && After(c, s, run) == Some(t) && Shape(c, t) && Enabled(c, t, a)
    ensures After(c, s, run + [a]) == Some(Apply(c, t, a)) && Shape(c, Apply(c, t, a))
  {
    ApplyKeepsShape(c, t, a);
    assert (run + [a])[..|run|] == run;
  }

  ghost predicate Reachable(c: Config, s: State) {
    exists run :: After(c, Init(c), run) == Some(s)
  }

  lemma ReachableStep(c: Config, s: State, a: Action)
    requires Reachable(c, s) && Shape(c, s) && Enabled(c, s, a)
    ensures Reachable(c, Apply(c, s, a)) && Shape(c, Apply(c, s, a))
  {
    var run :| After(c, Init(c), run) == Some(s);
    OneMore(c, Init(c), run, s, a);
  }

  // Reachability, as a predicate that the steps keep.

  /** Every step from a state in p leads to one in p. */
  ghost predicate Explores(c: Config, p: State -> bool) {
    forall s, a :: p(s) && Shape(c, s) && Enabled(c, s, a) ==> p(Apply(c, s, a))
  }

  ghost predicate OnlyReachable(c: Config, p: State -> bool) {
    forall s :: p(s) ==> Reachable(c, s)
  }

  ghost function CanReach(c: Config): State -> bool {
    s => Reachable(c, s)
  }

  lemma ReachableExplores(c: Config)
    ensures Explores(c, CanReach(c)) && OnlyReachable(c, CanReach(c)) && CanReach(c)(Init(c))
  {
    assert After(c, Init(c), []) == Some(Init(c));
    forall s, a | Reachable(c, s) && Shape(c, s) && Enabled(c, s, a)
      ensures Reachable(c, Apply(c, s, a))
    {
      ReachableStep(c, s, a);
    }
  }

  lemma Do(c: Config, p: State -> bool, s: State, a: Action) returns (t: State)
    requires Explores(c, p) && p(s) && Shape(c, s) && Enabled(c, s, a)
    ensures p(t) && Shape(c, t) && t == Apply(c, s, a)
  {
    ApplyKeepsShape(c, s, a);
    t := Apply(c, s, a);
  }
}
