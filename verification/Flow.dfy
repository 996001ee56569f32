/**
 What flows through the pipeline: queued segments alias reused buffers, and yet the documents that
 leave it are exactly the bodies of the accepted datagrams, in order, each once.
 */
module Flow {
  import opened Common
  import opened Util
  import opened Pipeline
  import opened Ownership

  ghost function Documents(c: Config, mem: seq<Bytes>, segs: seq<Segment>): seq<Bytes>
    requires MemoryShape(c, mem) && SegmentsShape(c, segs)
  {
    if segs == [] then [] else [Document(c, mem, segs[0])] + Documents(c, mem, segs[1..])
  }

  lemma {:induction false} DocumentsConcat(c: Config, mem: seq<Bytes>, xs: seq<Segment>, ys: seq<Segment>)
    requires MemoryShape(c, mem) && SegmentsShape(c, xs) && SegmentsShape(c, ys)
    ensures SegmentsShape(c, xs + ys)
    ensures Documents(c, mem, xs + ys) == Documents(c, mem, xs) + Documents(c, mem, ys)
  {
    if xs == [] {
      assert xs + ys == ys;
    } else {
      assert (xs + ys)[1..] == xs[1..] + ys;
      DocumentsConcat(c, mem, xs[1..], ys);
    }
  }

  lemma DocumentsAppend(c: Config, mem: seq<Bytes>, xs: seq<Segment>, seg: Segment)
    requires MemoryShape(c, mem) && SegmentsShape(c, xs) && SegmentShape(c, seg)
    ensures SegmentsShape(c, xs + [seg])
    ensures Documents(c, mem, xs + [seg]) == Documents(c, mem, xs) + [Document(c, mem, seg)]
  {
    DocumentsConcat(c, mem, xs, [seg]);
    assert [seg][1..] == [];
    assert Documents(c, mem, [seg]) == [Document(c, mem, seg)] + Documents(c, mem, []);
  }

  /** Overwriting a buffer changes no document that lies elsewhere. */
  lemma {:induction false} DocumentsFrame(c: Config, mem: seq<Bytes>, segs: seq<Segment>, b: nat, contents: Bytes)
    requires MemoryShape(c, mem) && SegmentsShape(c, segs) && b < c.buffers && |contents| == c.bufferSize
    requires Sum(Using(b), segs) == 0
    ensures Documents(c, mem[b := contents], segs) == Documents(c, mem, segs)
  {
    if segs != [] {
      assert SegmentShape(c, segs[0]);
      DocumentsFrame(c, mem, segs[1..], b, contents);
    }
  }

  /** The segment is the body of an acceptable datagram. */
  ghost predicate Carries(c: Config, mem: seq<Bytes>, seg: Segment, datagram: Bytes)
    requires MemoryShape(c, mem) && SegmentShape(c, seg)
  {
    Acceptable(c, datagram) && |datagram| <= c.bufferSize && Document(c, mem, seg) == Body(datagram, NEWLINE)
  }

  /** The buffer of a receiver holds what the socket delivered, and its segment is the body of that. */
  ghost predicate Faithful(c: Config, mem: seq<Bytes>, r: Receiver)
    requires MemoryShape(c, mem) && ReceiverShape(c, r)
  {
    match r
    case Parsing(b, n, datagram) => mem[b][..n] == datagram
    case Sending(seg, datagram) => Carries(c, mem, seg, datagram)
    case Evicting(seg, datagram) => Carries(c, mem, seg, datagram)
    case Recycling(_, seg, datagram) => Carries(c, mem, seg, datagram)
    case _ => true
  }

  ghost predicate AllFaithful(c: Config, mem: seq<Bytes>, receivers: seq<Receiver>)
    requires MemoryShape(c, mem) && ReceiversShape(c, receivers)
  {
    forall i :: 0 <= i < |receivers| ==> Faithful(c, mem, receivers[i])
  }

  /** The documents of the batch being sent that are copied but not yet queued. */
  ghost function InHand(b: Back): seq<Bytes> {
    match b.processor
    case Copying(_, docs, _) => docs
    case Releasing(_, docs, _) => docs
    case Offering(docs, _, _) => docs
    case Shedding(docs, _, _) => docs
    case _ => []
  }

  /** The batched segments that are still to be copied. */
  ghost function Uncopied(b: Back): seq<Segment> {
    match b.processor
    case Selecting => b.batch
    case Inspecting => b.batch
    case Copying(k, _, _) => if k <= |b.batch| then b.batch[k..] else []
    case Releasing(k, _, _) => if k < |b.batch| then b.batch[k + 1..] else []
    case _ => []
  }

  lemma UncopiedInShape(c: Config, b: Back)
    requires BackShape(c, b)
    ensures SegmentsShape(c, Uncopied(b))
  {
  }

  /** Everything ever put on the ring, from the oldest on: dequeued, queued, in hand, batched. */
  ghost function BackStream(c: Config, mem: seq<Bytes>, b: Back): seq<Bytes>
    requires MemoryShape(c, mem) && BackShape(c, b)
  {
    UncopiedInShape(c, b);
    Flatten(b.out) + Flatten(b.queue) + InHand(b) + Documents(c, mem, Uncopied(b))
  }

  ghost function Stream(c: Config, s: State): seq<Bytes>
    requires Shape(c, s)
  {
    BackStream(c, s.front.mem, s.back) + Documents(c, s.front.mem, s.front.ring)
  }

  /** No receiver is about to drop a queued segment, and none was ever dropped. */
  ghost predicate Calm(s: State) {
    && s.front.truncated == 0
    && forall i :: 0 <= i < |s.receivers| ==> !s.receivers[i].Evicting? && !s.receivers[i].Recycling?
  }

  /** The pipeline invariant about contents. */
  ghost predicate Flows(c: Config, s: State) {
    Shape(c, s) && Owned(c, s) && AllFaithful(c, s.front.mem, s.receivers) && Calm(s) && s.front.pushed == Stream(c, s)
  }

  /** The queued segments use distinct buffers, none of them that of a sender: the ring is not full. */
  lemma RingHasRoom(c: Config, s: State, i: nat)
    requires Shape(c, s) && Owned(c, s)
    requires i < |s.receivers| && s.receivers[i].Sending?
    ensures |s.front.ring| < c.buffers <= c.RingCapacity()
  {
    var ring := s.front.ring;
    var b := s.receivers[i].seg.buf;
    assert forall x: nat | x < c.buffers :: Places(s, x) == 1 ==> Sum(Using(x), ring) <= 1;
    SumUpdate(Holding(b), s.receivers, i, s.receivers[i]);
    assert Places(s, b) == 1;
    SumOfZeros(Using(b), ring);
    var bufs: seq<nat> := seq(|ring|, k requires 0 <= k < |ring| => ring[k].buf);
    forall j: nat, k: nat | j < k < |bufs|
      ensures bufs[j] != bufs[k]
    {
      assert SegmentShape(c, ring[j]);
      SumTwice(Using(bufs[j]), ring, j, k);
    }
    forall k | 0 <= k < |bufs|
      ensures bufs[k] < c.buffers && bufs[k] != b
    {
      assert SegmentShape(c, ring[k]) && Using(b)(ring[k]) == 0;
    }
    Pigeonhole(bufs, c.buffers, b);
  }

  lemma CalmMove(c: Config, f: Front, r: Receiver, step: ReceiverStep)
    requires FrontShape(c, f) && ReceiverShape(c, r) && ReceiverEnabled(c, f, r, step)
    requires !r.Evicting? && !r.Recycling? && (r.Sending? ==> |f.ring| < c.RingCapacity())
    ensures var m := ReceiverMove(c, f, r, step);
      m.front.truncated == f.truncated && !m.next.Evicting? && !m.next.Recycling?
    ensures !step.SendFindsFull? && !step.Evict? && !step.EvictNone? && !step.EvictOnClosed? && !step.Recycle?
  {
    match step
    case Accept =>
    case Send =>
    case SendFindsFull =>
    case Evict =>
    case _ =>
  }

  lemma ReceiverKeepsCalm(c: Config, s: State, i: nat, step: ReceiverStep)
    requires Shape(c, s) && Owned(c, s) && Calm(s)
    requires i < |s.receivers| && ReceiverEnabled(c, s.front, s.receivers[i], step)
    ensures Calm(ReceiverApply(c, s, i, step))
    ensures !step.SendFindsFull? && !step.Evict? && !step.EvictNone? && !step.EvictOnClosed? && !step.Recycle?
  {
    if s.receivers[i].Sending? {
      RingHasRoom(c, s, i);
    }
    CalmMove(c, s.front, s.receivers[i], step);
  }

  /** What a receiver writes or parses it writes and parses faithfully. */
  lemma ReceiverStaysFaithful(c: Config, f: Front, r: Receiver, step: ReceiverStep)
    requires FrontShape(c, f) && ReceiverShape(c, r) && ReceiverEnabled(c, f, r, step) && Faithful(c, f.mem, r)
    ensures ReceiverShape(c, ReceiverMove(c, f, r, step).next) && MemoryShape(c, ReceiverMove(c, f, r, step).front.mem)
    ensures Faithful(c, ReceiverMove(c, f, r, step).front.mem, ReceiverMove(c, f, r, step).next)
  {
    ReceiverMoveKeepsShape(c, f, r, step);
    if step.Accept? {
      var seg := BodySegment(c, r.b, r.datagram);
      assert f.mem[r.b][..r.n][seg.lo..] == f.mem[r.b][seg.lo..seg.hi];
    }
  }

  /** A receiver that writes to its buffer disturbs neither the other receivers nor any segment. */
  lemma WriteDisturbsNothing(c: Config, s: State, i: nat, contents: Bytes)
    requires Flows(c, s) && i < |s.receivers| && s.receivers[i].Reading? && |contents| == c.bufferSize
    ensures var b := s.receivers[i].b; var mem := s.front.mem[b := contents];
      && MemoryShape(c, mem)
      && (forall j :: 0 <= j < |s.receivers| && j != i ==> Faithful(c, mem, s.receivers[j]))
      && Documents(c, mem, s.front.ring) == Documents(c, s.front.mem, s.front.ring)
      && BackStream(c, mem, s.back) == BackStream(c, s.front.mem, s.back)
  {
    var b := s.receivers[i].b;
    var mem := s.front.mem[b := contents];
    assert ReceiverShape(c, s.receivers[i]);
    assert Places(s, b) == 1;
    SumUpdate(Holding(b), s.receivers, i, s.receivers[i]);
    DocumentsFrame(c, s.front.mem, s.front.ring, b, contents);
    UncopiedInShape(c, s.back);
    UncopiedIsHeld(c, s.back, b);
    DocumentsFrame(c, s.front.mem, Uncopied(s.back), b, contents);
    forall j: nat | j < |s.receivers| && j != i
      ensures Faithful(c, mem, s.receivers[j])
    {
      SumTwice(Holding(b), s.receivers, if i < j then i else j, if i < j then j else i);
      assert ReceiverShape(c, s.receivers[j]) && Faithful(c, s.front.mem, s.receivers[j]);
    }
  }

  lemma UncopiedIsHeld(c: Config, b: Back, x: nat)
    requires BackShape(c, b)
    ensures Sum(Using(x), Uncopied(b)) <= Sum(Using(x), Held(b))
  {
    if b.processor.Releasing? {
      assert Held(b)[1..] == Uncopied(b);
    }
  }

  lemma ReceiverKeepsOthersFaithful(c: Config, s: State, i: nat, step: ReceiverStep)
    requires Flows(c, s) && i < |s.receivers| && ReceiverEnabled(c, s.front, s.receivers[i], step)
    ensures var t := ReceiverApply(c, s, i, step); Shape(c, t) && AllFaithful(c, t.front.mem, t.receivers)
  {
    ReceiverApplyKeepsShape(c, s, i, step);
    ReceiverStaysFaithful(c, s.front, s.receivers[i], step);
    if step.ReadDatagram? || step.ReadNothing? {
      WriteDisturbsNothing(c, s, i, step.contents);
    }
  }

  /** Only a send lengthens the stream, and then by the body of the datagram it stands for. */
  lemma ReceiverExtendsStream(c: Config, s: State, i: nat, step: ReceiverStep)
    requires Flows(c, s) && i < |s.receivers| && ReceiverEnabled(c, s.front, s.receivers[i], step)
    ensures Shape(c, ReceiverApply(c, s, i, step))
    ensures ReceiverApply(c, s, i, step).front.pushed == Stream(c, ReceiverApply(c, s, i, step))
  {
    var r := s.receivers[i];
    ReceiverApplyKeepsShape(c, s, i, step);
    ReceiverKeepsCalm(c, s, i, step);
    match step
    case ReadDatagram(_, contents) => WriteDisturbsNothing(c, s, i, contents);
    case ReadNothing(contents) => WriteDisturbsNothing(c, s, i, contents);
    case Send =>
      DocumentsAppend(c, s.front.mem, s.front.ring, r.seg);
      assert Faithful(c, s.front.mem, r);
    case _ =>
  }

  lemma ReceiverKeepsFlows(c: Config, s: State, i: nat, step: ReceiverStep)
    requires Flows(c, s) && i < |s.receivers| && ReceiverEnabled(c, s.front, s.receivers[i], step)
    ensures Flows(c, ReceiverApply(c, s, i, step))
  {
    ReceiverApplyKeepsShape(c, s, i, step);
    ReceiverKeepsOwned(c, s, i, step);
    ReceiverKeepsCalm(c, s, i, step);
    ReceiverKeepsOthersFaithful(c, s, i, step);
    ReceiverExtendsStream(c, s, i, step);
  }

  lemma Shift<T>(xs: seq<T>, ys: seq<T>, z: T, zs: seq<T>)
    ensures xs + (ys + [z]) + zs == xs + ys + ([z] + zs)
  {
  }

  lemma CopyKeepsStream(c: Config, mem: seq<Bytes>, b: Back, t: Back)
    requires MemoryShape(c, mem) && BackShape(c, b) && BackShape(c, t)
    requires b.processor.Copying? && b.processor.k < |b.batch|
    requires var k := b.processor.k;
      t == b.(processor := Releasing(k, b.processor.docs + [Document(c, mem, b.batch[k])], b.processor.last))
    ensures BackStream(c, mem, t) == BackStream(c, mem, b)
  {
    UncopiedInShape(c, b);
    UncopiedInShape(c, t);
    assert Uncopied(b)[1..] == Uncopied(t);
    var d := Document(c, mem, Uncopied(b)[0]);
    assert Documents(c, mem, Uncopied(b)) == [d] + Documents(c, mem, Uncopied(t));
    Shift(Flatten(b.out) + Flatten(b.queue), InHand(b), d, Documents(c, mem, Uncopied(t)));
  }

  lemma OfferKeepsStream(c: Config, mem: seq<Bytes>, b: Back, t: Back)
    requires MemoryShape(c, mem) && BackShape(c, b) && BackShape(c, t)
    requires b.processor.Offering? && t == b.(queue := b.queue + [b.processor.docs], processor := Rearming(b.processor.last))
    ensures BackStream(c, mem, t) == BackStream(c, mem, b)
  {
    FlattenConcat(b.queue, [b.processor.docs]);
    FlattenOne(b.processor.docs);
  }

  ghost predicate Takes(step: ProcessorStep) {
    step.TakeSegment? || step.TakeLastSegment?
  }

  lemma OthersKeepStream(c: Config, f: Front, b: Back, step: ProcessorStep)
    requires FrontShape(c, f) && BackShape(c, b) && ProcessorEnabled(c, f, b, step) && !Takes(step)
    requires !step.Copy? && !step.Offer? && !step.Shed?
    ensures var t := ProcessorBack(c, f, b, step);
      t.out == b.out && t.queue == b.queue && InHand(t) == InHand(b) && Uncopied(t) == Uncopied(b)
  {
    assert b.batch[0..] == b.batch && b.batch[|b.batch|..] == [];
  }

  lemma ProcessorKeepsBackStream(c: Config, f: Front, b: Back, step: ProcessorStep)
    requires FrontShape(c, f) && BackShape(c, b) && ProcessorEnabled(c, f, b, step) && !Takes(step)
    requires BackShape(c, ProcessorBack(c, f, b, step))
    ensures BackStream(c, f.mem, ProcessorBack(c, f, b, step)) == BackStream(c, f.mem, b)
  {
    var t := ProcessorBack(c, f, b, step);
    match step
    case Copy => CopyKeepsStream(c, f.mem, b, t);
    case Offer => OfferKeepsStream(c, f.mem, b, t);
    case Shed => DequeuingKeepsStream(b);
    case _ => OthersKeepStream(c, f, b, step);
  }

  /** The processor passes documents on from the ring to the queue without changing the stream. */
  lemma ProcessorKeepsStream(c: Config, s: State, step: ProcessorStep)
    requires Shape(c, s) && ProcessorEnabled(c, s.front, s.back, step)
    ensures Shape(c, ProcessorApply(c, s, step))
    ensures Stream(c, ProcessorApply(c, s, step)) == Stream(c, s)
  {
    ProcessorApplyKeepsShape(c, s, step);
    if Takes(step) {
      TakingKeepsStream(c, s, ProcessorApply(c, s, step));
    } else {
      ProcessorKeepsBackStream(c, s.front, s.back, step);
    }
  }

  lemma TakingKeepsStream(c: Config, s: State, t: State)
    requires Shape(c, s) && Shape(c, t) && s.back.processor.Selecting? && s.front.ring != []
    requires t.front == s.front.(ring := s.front.ring[1..])
    requires t.back.out == s.back.out && t.back.queue == s.back.queue
    requires t.back.batch == s.back.batch + [s.front.ring[0]]
    requires var p := t.back.processor; p.Inspecting? || (p.Copying? && p.k == 0 && p.docs == [])
    ensures Stream(c, t) == Stream(c, s)
  {
    assert t.back.batch[0..] == t.back.batch;
    assert SegmentShape(c, s.front.ring[0]);
    DocumentsAppend(c, s.front.mem, s.back.batch, s.front.ring[0]);
  }

  lemma DequeuingKeepsStream(b: Back)
    requires b.queue != []
    ensures Flatten(Dequeued(b).out) + Flatten(Dequeued(b).queue) == Flatten(b.out) + Flatten(b.queue)
  {
    FlattenConcat(b.out, [b.queue[0]]);
    FlattenOne(b.queue[0]);
  }

  lemma ProcessorKeepsFlows(c: Config, s: State, step: ProcessorStep)
    requires Flows(c, s) && ProcessorEnabled(c, s.front, s.back, step)
    ensures Flows(c, ProcessorApply(c, s, step))
  {
    ProcessorApplyKeepsShape(c, s, step);
    ProcessorKeepsOwned(c, s, step);
    ProcessorKeepsStream(c, s, step);
  }

  lemma PollerKeepsBackStream(c: Config, mem: seq<Bytes>, b: Back, j: nat, step: PollerStep)
    requires MemoryShape(c, mem) && BackShape(c, b) && PollerEnabled(b, j, step)
    ensures BackShape(c, PollerBack(b, j, step)) && Held(PollerBack(b, j, step)) == Held(b)
    ensures BackStream(c, mem, PollerBack(b, j, step)) == BackStream(c, mem, b)
  {
    var t := PollerBack(b, j, step);
    assert t.processor == b.processor && t.batch == b.batch;
    if step.TakeBatch? {
      DequeuingKeepsStream(b);
    }
  }

  lemma PollerKeepsFlows(c: Config, s: State, j: nat, step: PollerStep)
    requires Flows(c, s) && PollerEnabled(s.back, j, step)
    ensures Flows(c, s.(back := PollerBack(s.back, j, step)))
  {
    var t := s.(back := PollerBack(s.back, j, step));
    PollerKeepsBackStream(c, s.front.mem, s.back, j, step);
    assert forall x: nat | x < c.buffers :: Places(t, x) == Places(s, x);
  }

  lemma ControlKeepsFlows(c: Config, s: State, step: ControlStep)
    requires Flows(c, s) && ControlEnabled(c, s, step)
    ensures Flows(c, ControlApply(c, s, step))
  {
    var t := ControlApply(c, s, step);
    assert forall x: nat | x < c.buffers :: Places(t, x) == Places(s, x);
  }

  lemma StepKeepsFlows(c: Config, s: State, a: Action)
    requires Flows(c, s) && Enabled(c, s, a)
    ensures Flows(c, Apply(c, s, a))
  {
    match a
    case ByReceiver(i, step) => ReceiverKeepsFlows(c, s, i, step);
    case ByProcessor(step) => ProcessorKeepsFlows(c, s, step);
    case ByPoller(j, step) => PollerKeepsFlows(c, s, j, step);
    case ByControl(step) => ControlKeepsFlows(c, s, step);
  }

  lemma InitiallyFlows(c: Config)
    ensures Flows(c, Init(c))
  {
    InitiallyOwned(c);
  }
}
