/** Batch sizes, the retry bound of the queue, and the ledger: every segment is counted exactly once. */
module Accounting {
  import opened Common
  import opened Pipeline
  import opened Flow

  /** A batch that may be submitted: between one and BatchSize documents. */
  ghost predicate Submittable(c: Config, batch: seq<Bytes>) {
    1 <= |batch| <= c.BatchSize()
  }

  ghost predicate AllSubmittable(c: Config, batches: seq<seq<Bytes>>) {
    forall k :: 0 <= k < |batches| ==> Submittable(c, batches[k])
  }

  /** Where the processor stands decides how full the batch is, and that the second try-send succeeds. */
  ghost predicate Filling(c: Config, b: Back) {
    match b.processor
    case Selecting => |b.batch| < c.BatchSize()
    case Inspecting => 1 <= |b.batch| < c.BatchSize()
    case Copying(k, docs, _) => 1 <= |b.batch| <= c.BatchSize() && |docs| == k
    case Releasing(k, docs, _) => 1 <= |b.batch| <= c.BatchSize() && |docs| == k + 1
    case Offering(docs, tries, _) =>
      Submittable(c, docs) && (tries == 1 || (tries == 2 && |b.queue| < c.queueCapacity))
    case Shedding(docs, tries, _) => Submittable(c, docs) && tries == 1
    case _ => true
  }

  ghost predicate Batching(c: Config, b: Back) {
    |b.queue| <= c.queueCapacity && AllSubmittable(c, b.queue) && AllSubmittable(c, b.out) && Filling(c, b)
  }

  lemma ProcessorKeepsFilling(c: Config, f: Front, b: Back, step: ProcessorStep)
    requires c.Wired() && FrontShape(c, f) && BackShape(c, b) && ProcessorEnabled(c, f, b, step)
    requires |b.queue| <= c.queueCapacity && Filling(c, b)
    ensures Filling(c, ProcessorBack(c, f, b, step))
  {
    match step
    case TakeSegment =>
    case TakeLastSegment =>
    case Copy =>
    case CopyDone =>
    case Release =>
    case Shed =>
    case ShedNone =>
    case _ =>
  }

  lemma ProcessorKeepsSubmittable(c: Config, f: Front, b: Back, step: ProcessorStep)
    requires FrontShape(c, f) && BackShape(c, b) && ProcessorEnabled(c, f, b, step) && Batching(c, b)
    ensures var t := ProcessorBack(c, f, b, step);
      |t.queue| <= c.queueCapacity && AllSubmittable(c, t.queue) && AllSubmittable(c, t.out)
  {
    match step
    case Offer => assert AllSubmittable(c, b.queue + [b.processor.docs]);
    case Shed => assert AllSubmittable(c, b.queue[1..]) && AllSubmittable(c, b.out + [b.queue[0]]);
    case _ =>
  }

  lemma ProcessorKeepsBatching(c: Config, f: Front, b: Back, step: ProcessorStep)
    requires c.Wired() && FrontShape(c, f) && BackShape(c, b) && Batching(c, b) && ProcessorEnabled(c, f, b, step)
    ensures Batching(c, ProcessorBack(c, f, b, step))
  {
    ProcessorKeepsFilling(c, f, b, step);
    ProcessorKeepsSubmittable(c, f, b, step);
  }

  lemma PollerKeepsBatching(c: Config, b: Back, j: nat, step: PollerStep)
    requires Batching(c, b) && PollerEnabled(b, j, step)
    ensures Batching(c, PollerBack(b, j, step))
  {
  }

  // The ledger of the front: what was received is accepted, rejected, dropped or still with a receiver.

  /** A receiver holds a datagram, or a fatal read, that is not yet booked anywhere. */
  ghost function Unbooked(r: Receiver): nat {
    if r.Parsing? || r.Rejecting? || r.Overflowing? then 1 else 0
  }

  /** A receiver holds an accepted segment that is not on the ring. */
  ghost function Unsent(r: Receiver): nat {
    if r.Sending? || r.Evicting? || r.Recycling? then 1 else 0
  }

  ghost predicate FrontBalances(c: Config, s: State) {
    && s.front.received + s.front.fatalFallbacks
       == s.front.counted + s.front.rejected + s.front.overflowed + Sum(Unbooked, s.receivers)
    && s.front.counted
       == s.back.processed + s.front.truncated + |s.front.ring| + Sum(Unsent, s.receivers)
  }

  // The ledger of the back: what was taken off the ring is shed, sent, failed or still on its way.

  ghost function PuttingSize(p: Poller): nat {
    if p.Putting? then |p.batch| else 0
  }

  /** Segments the processor has taken off the ring, wherever they are now. */
  ghost function Passing(b: Back): nat {
    |Flatten(b.out)| + |Flatten(b.queue)| + |InHand(b)| + |Uncopied(b)|
  }

  ghost predicate BackBalances(b: Back) {
    && |Flatten(b.out)| == b.shed + b.sent + b.failed + Sum(PuttingSize, b.pollers)
    && b.processed == Passing(b)
  }

  /** Segments between the socket and a verdict. */
  ghost function InFlight(s: State): nat {
    Sum(Unbooked, s.receivers) + Sum(Unsent, s.receivers) + |s.front.ring|
    + |Uncopied(s.back)| + |InHand(s.back)| + |Flatten(s.back.queue)| + Sum(PuttingSize, s.back.pollers)
  }

  ghost predicate Balanced(c: Config, s: State) {
    Shape(c, s) && Batching(c, s.back) && FrontBalances(c, s) && BackBalances(s.back)
  }

  /** What one step of a receiver does to the books. */
  lemma BooksOfMove(c: Config, f: Front, r: Receiver, step: ReceiverStep)
    requires FrontShape(c, f) && ReceiverShape(c, r) && ReceiverEnabled(c, f, r, step)
    ensures var m := ReceiverMove(c, f, r, step);
      m.front.received + m.front.fatalFallbacks + Unbooked(r) + f.counted + f.rejected + f.overflowed
      == f.received + f.fatalFallbacks + Unbooked(m.next) + m.front.counted + m.front.rejected + m.front.overflowed
  {
    match step
    case ReadDatagram(_, _) =>
    case OverflowDatagram =>
    case SignalOverflow =>
    case CountOverflow =>
    case Accept =>
    case Refuse =>
    case Reject =>
    case _ =>
  }

  lemma SegmentsOfMove(c: Config, f: Front, r: Receiver, step: ReceiverStep)
    requires FrontShape(c, f) && ReceiverShape(c, r) && ReceiverEnabled(c, f, r, step)
    ensures var m := ReceiverMove(c, f, r, step);
      m.front.counted + f.truncated + |f.ring| + Unsent(r) == f.counted + m.front.truncated + |m.front.ring| + Unsent(m.next)
  {
    match step
    case Accept =>
    case Send =>
    case SendFindsFull =>
    case Evict =>
    case EvictNone =>
    case Recycle =>
    case _ =>
  }

  lemma ReceiverKeepsBalanced(c: Config, s: State, i: nat, step: ReceiverStep)
    requires Balanced(c, s) && i < |s.receivers| && ReceiverEnabled(c, s.front, s.receivers[i], step)
    ensures Balanced(c, ReceiverApply(c, s, i, step))
  {
    ReceiverApplyKeepsShape(c, s, i, step);
    BooksOfMove(c, s.front, s.receivers[i], step);
    SegmentsOfMove(c, s.front, s.receivers[i], step);
    var m := ReceiverMove(c, s.front, s.receivers[i], step);
    SumUpdate(Unbooked, s.receivers, i, m.next);
    SumUpdate(Unsent, s.receivers, i, m.next);
  }

  lemma DequeuedSizes(b: Back)
    requires b.queue != []
    ensures |Flatten(Dequeued(b).out)| == |Flatten(b.out)| + |b.queue[0]|
    ensures |Flatten(b.queue)| == |b.queue[0]| + |Flatten(Dequeued(b).queue)|
  {
    FlattenConcat(b.out, [b.queue[0]]);
    FlattenOne(b.queue[0]);
  }

  lemma ProcessorKeepsDequeued(c: Config, f: Front, b: Back, step: ProcessorStep)
    requires FrontShape(c, f) && BackShape(c, b) && ProcessorEnabled(c, f, b, step)
    ensures var t := ProcessorBack(c, f, b, step);
      |Flatten(t.out)| + b.shed + Sum(PuttingSize, b.pollers) == |Flatten(b.out)| + t.shed + Sum(PuttingSize, t.pollers)
      && t.sent == b.sent && t.failed == b.failed
  {
    match step
    case Shed => DequeuedSizes(b);
    case JoinPoller(j) => SumUpdate(PuttingSize, b.pollers, j, Gone);
    case _ =>
  }

  lemma TakingMovesOne(c: Config, f: Front, b: Back, step: ProcessorStep)
    requires FrontShape(c, f) && BackShape(c, b) && ProcessorEnabled(c, f, b, step)
    ensures ProcessorBack(c, f, b, step).processed + |ProcessorFront(c, f, b, step).ring| == b.processed + |f.ring|
    ensures ProcessorBack(c, f, b, step).processed == b.processed + (if Takes(step) then 1 else 0)
  {
    match step
    case TakeSegment =>
    case TakeLastSegment =>
    case Shed =>
    case _ =>
  }

  lemma OthersKeepHand(c: Config, f: Front, b: Back, step: ProcessorStep)
    requires FrontShape(c, f) && BackShape(c, b) && ProcessorEnabled(c, f, b, step) && Batching(c, b)
    requires !step.Offer? && !Takes(step) && !step.Copy? && !step.CopyDone? && !step.Release?
    ensures var t := ProcessorBack(c, f, b, step);
      |InHand(t)| == |InHand(b)| && |Uncopied(t)| == |Uncopied(b)|
  {
  }

  lemma ProcessorKeepsHand(c: Config, f: Front, b: Back, step: ProcessorStep)
    requires FrontShape(c, f) && BackShape(c, b) && ProcessorEnabled(c, f, b, step) && !step.Offer?
    requires Batching(c, b)
    ensures var t := ProcessorBack(c, f, b, step);
      |InHand(t)| + |Uncopied(t)| == |InHand(b)| + |Uncopied(b)| + (if Takes(step) then 1 else 0)
  {
    match step
    case TakeSegment =>
    case TakeLastSegment =>
    case Copy =>
    case CopyDone =>
    case Release =>
    case _ => OthersKeepHand(c, f, b, step);
  }

  lemma ProcessorKeepsPassing(c: Config, f: Front, b: Back, step: ProcessorStep)
    requires FrontShape(c, f) && BackShape(c, b) && ProcessorEnabled(c, f, b, step) && Batching(c, b)
    ensures Passing(ProcessorBack(c, f, b, step)) == Passing(b) + (if Takes(step) then 1 else 0)
  {
    if step.Offer? {
      FlattenConcat(b.queue, [b.processor.docs]);
      FlattenOne(b.processor.docs);
    } else {
      ProcessorKeepsHand(c, f, b, step);
      if step.Shed? {
        DequeuedSizes(b);
      }
    }
  }

  lemma ProcessorKeepsBalanced(c: Config, s: State, step: ProcessorStep)
    requires c.Wired() && Balanced(c, s) && ProcessorEnabled(c, s.front, s.back, step)
    ensures Balanced(c, ProcessorApply(c, s, step))
  {
    ProcessorApplyKeepsShape(c, s, step);
    ProcessorKeepsBatching(c, s.front, s.back, step);
    ProcessorKeepsDequeued(c, s.front, s.back, step);
    TakingMovesOne(c, s.front, s.back, step);
    ProcessorKeepsPassing(c, s.front, s.back, step);
  }

  lemma PollerKeepsBooks(b: Back, j: nat, step: PollerStep)
    requires PollerEnabled(b, j, step) && BackBalances(b)
    ensures BackBalances(PollerBack(b, j, step))
  {
    var t := PollerBack(b, j, step);
    SumUpdate(PuttingSize, b.pollers, j, t.pollers[j]);
    assert t.pollers == b.pollers[j := t.pollers[j]];
    if step.TakeBatch? {
      DequeuedSizes(b);
    }
  }

  lemma PollerKeepsBalanced(c: Config, s: State, j: nat, step: PollerStep)
    requires Balanced(c, s) && PollerEnabled(s.back, j, step)
    ensures Balanced(c, s.(back := PollerBack(s.back, j, step)))
  {
    PollerKeepsBatching(c, s.back, j, step);
    PollerKeepsBooks(s.back, j, step);
  }

  lemma ControlKeepsBalanced(c: Config, s: State, step: ControlStep)
    requires Balanced(c, s) && ControlEnabled(c, s, step)
    ensures Balanced(c, ControlApply(c, s, step))
  {
  }

  lemma StepKeepsBalanced(c: Config, s: State, a: Action)
    requires c.Wired() && Balanced(c, s) && Enabled(c, s, a)
    ensures Balanced(c, Apply(c, s, a))
  {
    match a
    case ByReceiver(i, step) => ReceiverKeepsBalanced(c, s, i, step);
    case ByProcessor(step) => ProcessorKeepsBalanced(c, s, step);
    case ByPoller(j, step) => PollerKeepsBalanced(c, s, j, step);
    case ByControl(step) => ControlKeepsBalanced(c, s, step);
  }

  lemma InitiallyBalanced(c: Config)
    requires c.Wired()
    ensures Balanced(c, Init(c))
  {
    var s := Init(c);
    SumOfZeros(Unbooked, s.receivers);
    SumOfZeros(Unsent, s.receivers);
    SumOfZeros(PuttingSize, s.back.pollers);
  }
}
