/** Every buffer is always in exactly one place: no step duplicates, loses or overflows one. */
module Ownership {
  import opened Common
  import opened Pipeline

  ghost function Same(a: nat, b: nat): nat {
    if a == b then 1 else 0
  }

  /** How often a receiver holds buffer b. */
  ghost function Holds(r: Receiver, b: nat): nat {
    match r
    case Fetching => 0
    case Reading(x) => Same(x, b)
    case ReadingFallback => 0
    case Signalling(x) => Same(x, b)
    case SignallingFallback => 0
    case Discarding(x) => Same(x, b)
    case Overflowing => 0
    case Parsing(x, _, _) => Same(x, b)
    case Rejecting(x) => Same(x, b)
    case Sending(seg, _) => Same(seg.buf, b)
    case Evicting(seg, _) => Same(seg.buf, b)
    case Recycling(evicted, seg, _) => Same(evicted, b) + Same(seg.buf, b)
    case Retired(x) => Same(x, b)
  }

  // The counting functions for a fixed buffer b, to be summed.

  ghost function Listed(b: nat): nat -> nat {
    (x: nat) => Same(x, b)
  }

  ghost function Holding(b: nat): Receiver -> nat {
    (r: Receiver) => Holds(r, b)
  }

  ghost function Using(b: nat): Segment -> nat {
    (seg: Segment) => Same(seg.buf, b)
  }

  /** The batched segments whose buffers the processor has yet to return. */
  ghost function Held(b: Back): seq<Segment> {
    match b.processor
    case Selecting => b.batch
    case Inspecting => b.batch
    case Copying(k, _, _) => if k <= |b.batch| then b.batch[k..] else []
    case Releasing(k, _, _) => if k <= |b.batch| then b.batch[k..] else []
    case _ => []
  }

  /** How often buffer b occurs in pool and ring, with the receivers, and with the processor. */
  ghost function InFront(f: Front, b: nat): nat {
    Sum(Listed(b), f.pool) + Sum(Using(b), f.ring)
  }

  ghost function Places(s: State, b: nat): nat {
    InFront(s.front, b) + Sum(Holding(b), s.receivers) + Sum(Using(b), Held(s.back))
  }

  ghost predicate Owned(c: Config, s: State) {
    forall b: nat | b < c.buffers :: Places(s, b) == 1
  }

  /** Numbers that are listed at most once, are not b and stay below n leave room for b. */
  lemma RoomFor(pool: seq<nat>, n: nat, b: nat)
    requires b < n && Sum(Listed(b), pool) == 0
    requires forall k :: 0 <= k < |pool| ==> pool[k] < n
    requires forall x: nat | x < n :: Sum(Listed(x), pool) <= 1
    ensures b !in pool && |pool| < n
  {
    SumOfZeros(Listed(b), pool);
    forall j: nat, k: nat | j < k < |pool|
      ensures pool[j] != pool[k]
    {
      SumTwice(Listed(pool[j]), pool, j, k);
    }
    Pigeonhole(pool, n, b);
  }

  /** A buffer held outside the pool can be returned: it is not listed, and there is room. */
  lemma Returnable(c: Config, s: State, b: nat)
    requires Shape(c, s) && Owned(c, s) && b < c.buffers
    requires Sum(Holding(b), s.receivers) + Sum(Using(b), Held(s.back)) >= 1
    ensures b !in s.front.pool && |s.front.pool| < c.buffers
    ensures Outcomes.Returned(s.front.pool, c.buffers, b) == s.front.pool + [b]
  {
    assert Places(s, b) == 1;
    assert forall x: nat | x < c.buffers :: Places(s, x) == 1 ==> Sum(Listed(x), s.front.pool) <= 1;
    RoomFor(s.front.pool, c.buffers, b);
  }

  /** What the receiver hands back next is accepted by the pool. */
  ghost predicate Accepted(c: Config, f: Front, b: nat) {
    Outcomes.Returned(f.pool, c.buffers, b) == f.pool + [b]
  }

  ghost predicate ReturnsAccepted(c: Config, f: Front, r: Receiver) {
    match r
    case Discarding(b) => Accepted(c, f, b)
    case Rejecting(b) => Accepted(c, f, b)
    case Recycling(b, _, _) => Accepted(c, f, b)
    case _ => true
  }

  lemma ReceiverReturnsAccepted(c: Config, s: State, i: nat)
    requires Shape(c, s) && Owned(c, s) && i < |s.receivers|
    ensures ReturnsAccepted(c, s.front, s.receivers[i])
  {
    var r := s.receivers[i];
    if r.Discarding? || r.Rejecting? || r.Recycling? {
      var b := if r.Recycling? then r.evicted else r.b;
      SumUpdate(Holding(b), s.receivers, i, r);
      Returnable(c, s, b);
    }
  }

  lemma ProcessorReturnAccepted(c: Config, s: State)
    requires Shape(c, s) && Owned(c, s) && s.back.processor.Releasing?
    ensures Accepted(c, s.front, s.back.batch[s.back.processor.k].buf)
  {
    var b := s.back.batch[s.back.processor.k].buf;
    SumUpdate(Using(b), Held(s.back), 0, Held(s.back)[0]);
    Returnable(c, s, b);
  }

  ghost predicate Returns(step: ReceiverStep) {
    step.Discard? || step.Reject? || step.Recycle?
  }

  lemma ReturningBalances(c: Config, f: Front, r: Receiver, step: ReceiverStep, b: nat)
    requires FrontShape(c, f) && ReceiverShape(c, r) && ReceiverEnabled(c, f, r, step)
    requires ReturnsAccepted(c, f, r) && Returns(step)
    ensures var m := ReceiverMove(c, f, r, step); InFront(m.front, b) + Holds(m.next, b) == InFront(f, b) + Holds(r, b)
  {
    var back: nat := if step.Recycle? then r.evicted else r.b;
    SumAppend(Listed(b), f.pool, back);
  }

  lemma FetchingBalances(f: Front, b: nat)
    requires f.pool != []
    ensures var last := |f.pool| - 1; Sum(Listed(b), f.pool) == Sum(Listed(b), f.pool[..last]) + Same(f.pool[last], b)
  {
    var last := |f.pool| - 1;
    assert f.pool == f.pool[..last] + [f.pool[last]];
    SumAppend(Listed(b), f.pool[..last], f.pool[last]);
  }

  lemma KeepingBalances(c: Config, f: Front, r: Receiver, step: ReceiverStep, b: nat)
    requires FrontShape(c, f) && ReceiverShape(c, r) && ReceiverEnabled(c, f, r, step)
    requires !Returns(step) && !step.FetchBuffer? && !step.Send?
    ensures var m := ReceiverMove(c, f, r, step); InFront(m.front, b) + Holds(m.next, b) == InFront(f, b) + Holds(r, b)
  {
  }

  /** A receiver's steps only move buffers between the pool, the ring and itself. */
  lemma ReceiverBalances(c: Config, f: Front, r: Receiver, step: ReceiverStep, b: nat)
    requires FrontShape(c, f) && ReceiverShape(c, r) && ReceiverEnabled(c, f, r, step)
    requires ReturnsAccepted(c, f, r)
    ensures var m := ReceiverMove(c, f, r, step); InFront(m.front, b) + Holds(m.next, b) == InFront(f, b) + Holds(r, b)
  {
    if step.FetchBuffer? {
      FetchingBalances(f, b);
    } else if step.Send? {
      SumAppend(Using(b), f.ring, r.seg);
    } else if Returns(step) {
      ReturningBalances(c, f, r, step, b);
    } else {
      KeepingBalances(c, f, r, step, b);
    }
  }

  lemma ReceiverKeepsOwned(c: Config, s: State, i: nat, step: ReceiverStep)
    requires Shape(c, s) && i < |s.receivers| && ReceiverEnabled(c, s.front, s.receivers[i], step)
    requires Owned(c, s)
    ensures Owned(c, ReceiverApply(c, s, i, step))
  {
    ReceiverReturnsAccepted(c, s, i);
    var m := ReceiverMove(c, s.front, s.receivers[i], step);
    forall b: nat | b < c.buffers
      ensures Places(ReceiverApply(c, s, i, step), b) == 1
    {
      assert Places(s, b) == 1;
      ReceiverBalances(c, s.front, s.receivers[i], step, b);
      SumUpdate(Holding(b), s.receivers, i, m.next);
    }
  }

  lemma MostStepsKeepHeld(c: Config, f: Front, b: Back, step: ProcessorStep)
    requires FrontShape(c, f) && BackShape(c, b) && ProcessorEnabled(c, f, b, step)
    requires !step.TakeSegment? && !step.TakeLastSegment? && !step.Release?
    ensures Held(ProcessorBack(c, f, b, step)) == Held(b)
    ensures ProcessorFront(c, f, b, step).pool == f.pool && ProcessorFront(c, f, b, step).ring == f.ring
  {
    assert b.batch[0..] == b.batch && b.batch[|b.batch|..] == [];
  }

  lemma TakingBalances(c: Config, f: Front, b: Back, step: ProcessorStep, x: nat)
    requires FrontShape(c, f) && BackShape(c, b) && ProcessorEnabled(c, f, b, step)
    requires step.TakeSegment? || step.TakeLastSegment?
    ensures InFront(ProcessorFront(c, f, b, step), x) + Sum(Using(x), Held(ProcessorBack(c, f, b, step)))
         == InFront(f, x) + Sum(Using(x), Held(b))
  {
    SumAppend(Using(x), b.batch, f.ring[0]);
    assert (b.batch + [f.ring[0]])[0..] == b.batch + [f.ring[0]];
  }

  lemma ReleasingBalances(c: Config, f: Front, b: Back, x: nat)
    requires FrontShape(c, f) && BackShape(c, b) && ProcessorEnabled(c, f, b, Release)
    requires Accepted(c, f, b.batch[b.processor.k].buf)
    ensures InFront(ProcessorFront(c, f, b, Release), x) + Sum(Using(x), Held(ProcessorBack(c, f, b, Release)))
         == InFront(f, x) + Sum(Using(x), Held(b))
  {
    SumAppend(Listed(x), f.pool, b.batch[b.processor.k].buf);
    assert Held(b)[1..] == b.batch[b.processor.k + 1..];
  }

  /** The processor's steps only move buffers from the ring to the batch, and from there to the pool. */
  lemma ProcessorBalances(c: Config, f: Front, b: Back, step: ProcessorStep, x: nat)
    requires FrontShape(c, f) && BackShape(c, b) && ProcessorEnabled(c, f, b, step)
    requires step.Release? ==> Accepted(c, f, b.batch[b.processor.k].buf)
    ensures InFront(ProcessorFront(c, f, b, step), x) + Sum(Using(x), Held(ProcessorBack(c, f, b, step)))
         == InFront(f, x) + Sum(Using(x), Held(b))
  {
    if step.TakeSegment? || step.TakeLastSegment? {
      TakingBalances(c, f, b, step, x);
    } else if step.Release? {
      ReleasingBalances(c, f, b, x);
    } else {
      MostStepsKeepHeld(c, f, b, step);
    }
  }

  lemma ProcessorKeepsOwned(c: Config, s: State, step: ProcessorStep)
    requires Shape(c, s) && ProcessorEnabled(c, s.front, s.back, step)
    requires Owned(c, s)
    ensures Owned(c, ProcessorApply(c, s, step))
  {
    if step.Release? {
      ProcessorReturnAccepted(c, s);
    }
    forall x: nat | x < c.buffers
      ensures Places(ProcessorApply(c, s, step), x) == 1
    {
      assert Places(s, x) == 1;
      ProcessorBalances(c, s.front, s.back, step, x);
    }
  }

  lemma {:induction false} NumbersOnce(n: nat, b: nat)
    ensures Sum(Listed(b), Numbers(n)) == if b < n then 1 else 0
  {
    if n > 0 {
      var last: nat := n - 1;
      NumbersOnce(last, b);
      SumAppend(Listed(b), Numbers(last), last);
    }
  }

  lemma InitiallyOwned(c: Config)
    ensures Owned(c, Init(c))
  {
    forall b: nat | b < c.buffers
      ensures Places(Init(c), b) == 1
    {
      NumbersOnce(c.buffers, b);
      SumOfZeros(Holding(b), Init(c).receivers);
    }
  }
}
