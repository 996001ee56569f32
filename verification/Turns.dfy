/**
 The step system does what the classes do: the steps of one turn of one goroutine, if nothing comes
 between them, lead to the state that a function of Outcomes gives, and the contract of the method for
 that turn, Daemon.PollOnce, Processor.PollOnce, Processor.Finish or SegmentsBatch.PollOnce, equates
 its new state with the same function.
 */
module Turns {
  import opened Common
  import opened Flow
  import opened Outcomes
  import opened Pipeline
  import opened Util

  datatype Actor = TheProcessor | TheReceiver(i: nat) | ThePoller(j: nat)

  ghost predicate Belongs(a: Action, who: Actor) {
    match who
    case TheProcessor => a.ByProcessor?
    case TheReceiver(i) => a.ByReceiver? && a.i == i
    case ThePoller(j) => a.ByPoller? && a.j == j
  }

  ghost predicate Alone(run: seq<Action>, who: Actor) {
    forall k :: 0 <= k < |run| ==> Belongs(run[k], who)
  }

  /** Steps of one goroutine alone take s to t. */
  ghost predicate Leads(c: Config, s: State, t: State, who: Actor) {
    && Shape(c, s) && Shape(c, t)
    && exists run :: After(c, s, run) == Some(t) && Alone(run, who)
  }

  /** The states in p are closed under the steps of one goroutine. */
  ghost predicate Closed(c: Config, p: State -> bool, who: Actor) {
    forall t, a :: p(t) && Shape(c, t) && Belongs(a, who) && Enabled(c, t, a) ==> p(Apply(c, t, a))
  }

  /** Where the steps of one goroutine lead from s. */
  ghost function From(c: Config, s: State, who: Actor): State -> bool {
    t => Leads(c, s, t, who)
  }

  lemma AloneLonger(run: seq<Action>, a: Action, who: Actor)
    requires Alone(run, who) && Belongs(a, who)
    ensures Alone(run + [a], who)
  {
  }

  lemma LeadsBy(c: Config, s: State, t: State, who: Actor, run: seq<Action>)
    requires Shape(c, s) && Shape(c, t) && After(c, s, run) == Some(t) && Alone(run, who)
    ensures Leads(c, s, t, who)
  {
  }

  lemma OneStepFurther(c: Config, s: State, t: State, who: Actor, a: Action)
    requires Leads(c, s, t, who) && Belongs(a, who) && Enabled(c, t, a)
    ensures Leads(c, s, Apply(c, t, a), who)
  {
    var run :| After(c, s, run) == Some(t) && Alone(run, who);
    OneMore(c, s, run, t, a);
    AloneLonger(run, a, who);
    LeadsBy(c, s, Apply(c, t, a), who, run + [a]);
  }

  lemma FromIsClosed(c: Config, s: State, who: Actor)
    requires Shape(c, s)
    ensures Closed(c, From(c, s, who), who) && From(c, s, who)(s)
  {
    assert After(c, s, []) == Some(s);
    forall t, a | Leads(c, s, t, who) && Belongs(a, who) && Enabled(c, t, a)
      ensures Leads(c, s, Apply(c, t, a), who)
    {
      OneStepFurther(c, s, t, who, a);
    }
  }

  lemma Then(c: Config, p: State -> bool, who: Actor, s: State, a: Action) returns (t: State)
    requires Closed(c, p, who) && p(s) && Shape(c, s) && Belongs(a, who) && Enabled(c, s, a)
    ensures t == Apply(c, s, a) && p(t) && Shape(c, t)
  {
    ApplyKeepsShape(c, s, a);
    t := Apply(c, s, a);
  }

  // What the step system and the classes have in common

  ghost function BufOf(): Segment -> nat {
    (seg: Segment) => seg.buf
  }

  ghost function RingView(f: Front): RingState<nat, Segment> {
    RingState(f.pool, f.ring, f.truncated)
  }

  ghost function PollView(s: State, i: nat): PollState<nat, Segment>
    requires i < |s.signals|
  {
    var f := s.front;
    PollState(RingView(f), f.received, f.counted, f.rejected, f.overflowed, s.signals[i])
  }

  ghost function SelectView(s: State): SelectState<nat, Segment> {
    var f, b := s.front, s.back;
    SelectState(f.pool, f.ring, b.batch, b.queue, b.shed, b.processed, b.queueClosed)
  }

  ghost function UploadView(s: State, j: nat): UploadState
    requires j < |s.back.pollers|
  {
    var b := s.back;
    UploadState(b.queue, b.sent, b.unprocessed, b.failed, b.pollers[j].Reporting?)
  }

  ghost function Limited(c: Config): Limits {
    Limits(c.buffers, c.BatchSize(), c.queueCapacity)
  }

  // The processor

  /** The processor has just turned to sending its batch, and nothing is in its way. */
  ghost predicate AboutToCopy(c: Config, s: State) {
    && Shape(c, s) && !s.front.panicked && !s.back.queueClosed
    && |s.back.queue| <= c.queueCapacity && c.queueCapacity > 0
    && s.back.processor.Copying? && s.back.processor.k == 0 && s.back.processor.docs == []
  }

  /** The first k documents of the batch have been copied and their buffers returned. */
  ghost function Copied(c: Config, s: State, k: nat): State
    requires AboutToCopy(c, s) && k <= |s.back.batch|
  {
    s.(front := s.front.(pool := ReturnedAll(s.front.pool, c.buffers, Names(BufOf(), s.back.batch), k)),
       back := s.back.(processor := Copying(k, Documents(c, s.front.mem, s.back.batch[..k]), s.back.processor.last)))
  }

  /** One document further. */
  lemma CopyOne(c: Config, s: State, k: nat)
    requires AboutToCopy(c, s) && k < |s.back.batch| && Shape(c, Copied(c, s, k))
    ensures var t := Copied(c, s, k);
      && Enabled(c, t, ByProcessor(Copy))
      && var u := Apply(c, t, ByProcessor(Copy));
      && Shape(c, u) && Enabled(c, u, ByProcessor(Release))
      && Apply(c, u, ByProcessor(Release)) == Copied(c, s, k + 1)
  {
    var batch, t := s.back.batch, Copied(c, s, k);
    assert batch[..k + 1] == batch[..k] + [batch[k]];
    DocumentsAppend(c, s.front.mem, batch[..k], batch[k]);
    assert Names(BufOf(), batch)[k] == batch[k].buf;
    ApplyKeepsShape(c, t, ByProcessor(Copy));
  }

  lemma CopyNext(c: Config, p: State -> bool, s: State, k: nat)
    requires Closed(c, p, TheProcessor) && AboutToCopy(c, s) && k < |s.back.batch|
    requires p(Copied(c, s, k)) && Shape(c, Copied(c, s, k))
    ensures p(Copied(c, s, k + 1)) && Shape(c, Copied(c, s, k + 1))
  {
    CopyOne(c, s, k);
    var t := Then(c, p, TheProcessor, Copied(c, s, k), ByProcessor(Copy));
    t := Then(c, p, TheProcessor, t, ByProcessor(Release));
  }

  lemma {:induction false} CopyAll(c: Config, p: State -> bool, s: State, k: nat)
    requires AboutToCopy(c, s) && Closed(c, p, TheProcessor) && p(s) && Shape(c, s) && k <= |s.back.batch|
    ensures p(Copied(c, s, k)) && Shape(c, Copied(c, s, k))
  {
    if k == 0 {
      assert Copied(c, s, 0) == s;
    } else {
      CopyAll(c, p, s, k - 1);
      CopyNext(c, p, s, k - 1);
    }
  }

  /** Making room: the oldest batch leaves the full queue. */
  lemma ShedTurn(c: Config, p: State -> bool, s: State) returns (t: State)
    requires Closed(c, p, TheProcessor) && p(s) && Shape(c, s) && !s.front.panicked && !s.back.queueClosed
    requires s.back.processor.Offering? && s.back.processor.tries == 1
    requires |s.back.queue| == c.queueCapacity > 0
    ensures p(t) && Shape(c, t)
    ensures var was := s.back.processor;
      t == s.(back := Dequeued(s.back).(
        processor := Offering(was.docs, 2, was.last), shed := s.back.shed + |s.back.queue[0]|))
  {
    t := Then(c, p, TheProcessor, s, ByProcessor(OfferFindsFull));
    t := Then(c, p, TheProcessor, t, ByProcessor(Shed));
  }

  /** A batch offered to a queue within capacity ends up in it, at the price of at most the oldest. */
  lemma OfferTurn(c: Config, p: State -> bool, s: State) returns (t: State)
    requires Closed(c, p, TheProcessor) && p(s) && Shape(c, s) && !s.front.panicked && !s.back.queueClosed
    requires s.back.processor.Offering? && s.back.processor.tries == 1
    requires |s.back.queue| <= c.queueCapacity && c.queueCapacity > 0
    ensures p(t) && Shape(c, t)
    ensures var was, full := s.back.processor, |s.back.queue| == c.queueCapacity;
      t == s.(back := s.back.(
        processor := Rearming(was.last), queue := Pushed(s.back.queue, c.queueCapacity, was.docs),
        shed := s.back.shed + (if full then |s.back.queue[0]| else 0),
        out := s.back.out + (if full then [s.back.queue[0]] else [])))
  {
    t := s;
    if |s.back.queue| == c.queueCapacity {
      t := ShedTurn(c, p, s);
    }
    t := Then(c, p, TheProcessor, t, ByProcessor(Offer));
    assert s.back.out + [] == s.back.out;
  }

  /** Sending the batch, up to the state before the next select, or before the queue is closed. */
  lemma SubmitTurn(c: Config, p: State -> bool, s: State) returns (t: State)
    requires AboutToCopy(c, s) && Closed(c, p, TheProcessor) && p(s)
    ensures p(t) && Shape(c, t)
    ensures SelectView(t)
         == AfterSubmit(SelectView(s), Limited(c), BufOf(), Documents(c, s.front.mem, s.back.batch))
    ensures t.back.processor == if s.back.processor.last then ClosingQueue else Selecting
    ensures t.front == s.front.(pool := t.front.pool) && t.receivers == s.receivers && t.back.pollers == s.back.pollers
  {
    var n := |s.back.batch|;
    CopyAll(c, p, s, n);
    assert s.back.batch[..n] == s.back.batch;
    t := Then(c, p, TheProcessor, Copied(c, s, n), ByProcessor(CopyDone));
    t := OfferTurn(c, p, t);
    t := Then(c, p, TheProcessor, t, ByProcessor(if s.back.processor.last then RearmLast else Rearm));
  }

  /** The processor stands before its select, and has room to send. */
  ghost predicate AboutToSelect(c: Config, s: State) {
    && Shape(c, s) && !s.front.panicked && s.back.processor.Selecting? && !s.back.queueClosed
    && |s.back.queue| <= c.queueCapacity && c.queueCapacity > 0
  }

  ghost predicate Found(s: State, event: Event) {
    match event
    case SegmentArrives => s.front.ring != []
    case TimerFires => true
    case RingClosed => s.front.ring == [] && s.front.ringClosed
  }

  /** The turn that the event starts has taken s to t, which is before the next select. */
  ghost predicate Selected(c: Config, s: State, t: State, event: Event)
    requires Shape(c, s) && (event.SegmentArrives? ==> s.front.ring != [])
  {
    var batched := Batched(SelectView(s), event);
    && SegmentsShape(c, batched) && t.back.processor.Selecting? && t.front.mem == s.front.mem
    && SelectView(t) == AfterSelect(SelectView(s), Limited(c), BufOf(), event, Documents(c, s.front.mem, batched))
  }

  lemma FullSteps(c: Config, p: State -> bool, s: State) returns (t: State)
    requires AboutToSelect(c, s) && Closed(c, p, TheProcessor) && p(s) && s.front.ring != []
    requires |s.back.batch| + 1 >= c.BatchSize()
    ensures p(t) && Selected(c, s, t, SegmentArrives)
  {
    t := Then(c, p, TheProcessor, s, ByProcessor(TakeLastSegment));
    t := SubmitTurn(c, p, t);
  }

  lemma SegmentSteps(c: Config, p: State -> bool, s: State) returns (t: State)
    requires AboutToSelect(c, s) && Closed(c, p, TheProcessor) && p(s) && s.front.ring != []
    requires |s.back.batch| + 1 < c.BatchSize()
    ensures p(t) && Selected(c, s, t, SegmentArrives)
  {
    t := Then(c, p, TheProcessor, s, ByProcessor(TakeSegment));
    if s.front.pool == [] {
      t := Then(c, p, TheProcessor, t, ByProcessor(PoolIsEmpty));
      t := SubmitTurn(c, p, t);
    } else {
      t := Then(c, p, TheProcessor, t, ByProcessor(PoolHasBuffers));
    }
  }

  lemma TimerSteps(c: Config, p: State -> bool, s: State) returns (t: State)
    requires AboutToSelect(c, s) && Closed(c, p, TheProcessor) && p(s)
    ensures p(t) && Selected(c, s, t, TimerFires)
  {
    if s.back.batch == [] {
      t := Then(c, p, TheProcessor, s, ByProcessor(IdleRearm));
    } else {
      t := Then(c, p, TheProcessor, s, ByProcessor(IdleFlush));
      t := SubmitTurn(c, p, t);
    }
  }

  /** A turn of the processor that a segment or the idle timer starts: Processor.PollOnce. */
  lemma SelectTurn(c: Config, s: State, event: Event)
    requires AboutToSelect(c, s) && Found(s, event) && !event.RingClosed?
    ensures exists t :: Leads(c, s, t, TheProcessor) && Selected(c, s, t, event)
  {
    var p := From(c, s, TheProcessor);
    FromIsClosed(c, s, TheProcessor);
    var t;
    if event.TimerFires? {
      t := TimerSteps(c, p, s);
    } else if |s.back.batch| + 1 >= c.BatchSize() {
      t := FullSteps(c, p, s);
    } else {
      t := SegmentSteps(c, p, s);
    }
    assert Leads(c, s, t, TheProcessor) && Selected(c, s, t, event);
  }

  /** The loop has ended, and what follows it has taken s to t, where the pollers are waited for. */
  ghost predicate LoopEnded(c: Config, s: State, t: State)
    requires Shape(c, s)
  {
    && t.back.processor == Joining(0) && t.front.mem == s.front.mem
    && SelectView(t) == AfterLoop(SelectView(s), Limited(c), BufOf(), Documents(c, s.front.mem, s.back.batch))
  }

  lemma ClosedSteps(c: Config, p: State -> bool, s: State) returns (t: State)
    requires AboutToSelect(c, s) && Closed(c, p, TheProcessor) && p(s) && Found(s, RingClosed)
    ensures p(t) && LoopEnded(c, s, t)
  {
    if s.back.batch == [] {
      t := Then(c, p, TheProcessor, s, ByProcessor(CloseSeen));
    } else {
      t := Then(c, p, TheProcessor, s, ByProcessor(CloseSeenFlush));
      t := SubmitTurn(c, p, t);
    }
    t := Then(c, p, TheProcessor, t, ByProcessor(CloseQueue));
  }

  /** The turn in which the ring is found closed, and what follows the loop: Processor.PollOnce and Finish. */
  lemma ClosedTurn(c: Config, s: State)
    requires AboutToSelect(c, s) && Found(s, RingClosed)
    ensures exists t :: Leads(c, s, t, TheProcessor) && LoopEnded(c, s, t)
  {
    FromIsClosed(c, s, TheProcessor);
    var t := ClosedSteps(c, From(c, s, TheProcessor), s);
    assert Leads(c, s, t, TheProcessor) && LoopEnded(c, s, t);
  }

  // The pollers

  ghost predicate Uploading(s: State, t: State, j: nat, result: PutResult)
    requires j < |s.back.pollers|
  {
    && j < |t.back.pollers| && UploadView(t, j) == AfterUpload(UploadView(s, j), result)
    && t.back.pollers == s.back.pollers[j := if s.back.queue == [] then Reporting else Idle]
  }

  lemma UploadSteps(c: Config, p: State -> bool, s: State, j: nat, result: PutResult) returns (t: State)
    requires Closed(c, p, ThePoller(j)) && p(s) && Shape(c, s) && !s.front.panicked
    requires j < |s.back.pollers| && s.back.pollers[j].Idle? && (s.back.queue != [] || s.back.queueClosed)
    ensures p(t) && Uploading(s, t, j, result)
  {
    var who := ThePoller(j);
    if s.back.queue == [] {
      t := Then(c, p, who, s, ByPoller(j, QueueCloseSeen));
    } else {
      t := Then(c, p, who, s, ByPoller(j, TakeBatch));
      if result.Failed? {
        t := Then(c, p, who, t, ByPoller(j, PutFailed));
      } else {
        t := Then(c, p, who, t, ByPoller(j, PutSucceeded(Rejections(result.unprocessed))));
      }
    }
  }

  /** A turn of a poller: SegmentsBatch.PollOnce. */
  lemma UploadTurn(c: Config, s: State, j: nat, result: PutResult)
    requires Shape(c, s) && j < |s.back.pollers| && s.back.pollers[j].Idle? && !s.front.panicked
    requires s.back.queue != [] || s.back.queueClosed
    ensures exists t :: Leads(c, s, t, ThePoller(j)) && Uploading(s, t, j, result)
  {
    FromIsClosed(c, s, ThePoller(j));
    var t := UploadSteps(c, From(c, s, ThePoller(j)), s, j, result);
    assert Leads(c, s, t, ThePoller(j)) && Uploading(s, t, j, result);
  }

  // The receivers

  /** Making room: the oldest segment leaves the full ring, and its buffer goes back to the pool. */
  lemma EvictTurn(c: Config, p: State -> bool, s: State, i: nat) returns (t: State)
    requires Closed(c, p, TheReceiver(i)) && p(s) && Shape(c, s) && i < |s.receivers| && s.receivers[i].Sending?
    requires !s.front.panicked && !s.front.ringClosed && |s.front.ring| == c.RingCapacity()
    ensures p(t) && Shape(c, t)
    ensures t == s.(front := s.front.(ring := s.front.ring[1..], truncated := s.front.truncated + 1,
                                      pool := Returned(s.front.pool, c.buffers, s.front.ring[0].buf)))
  {
    t := Then(c, p, TheReceiver(i), s, ByReceiver(i, SendFindsFull));
    t := Then(c, p, TheReceiver(i), t, ByReceiver(i, Evict));
    t := Then(c, p, TheReceiver(i), t, ByReceiver(i, Recycle));
    assert t.receivers == s.receivers;
  }

  /** Sending a segment: RingBuffer.Send. */
  lemma SendTurn(c: Config, p: State -> bool, s: State, i: nat) returns (t: State)
    requires Closed(c, p, TheReceiver(i)) && p(s) && Shape(c, s) && i < |s.receivers| && s.receivers[i].Sending?
    requires !s.front.panicked && !s.front.ringClosed && |s.front.ring| <= c.RingCapacity()
    ensures p(t) && Shape(c, t) && t.receivers == s.receivers[i := Fetching] && t.signals == s.signals
    ensures RingView(t.front) == AfterSend(RingView(s.front), c.buffers, c.RingCapacity(), BufOf(), s.receivers[i].seg)
    ensures t.front
         == s.front.(pool := t.front.pool, ring := t.front.ring, truncated := t.front.truncated, pushed := t.front.pushed)
  {
    t := s;
    if |s.front.ring| == c.RingCapacity() {
      t := EvictTurn(c, p, s, i);
    }
    t := Then(c, p, TheReceiver(i), t, ByReceiver(i, Send));
  }

  /** The part of buffer b that holds the body of the text it starts with. */
  ghost function BodyOf(b: nat, text: Bytes): Segment {
    Segment(b, HeaderEnd(text, NEWLINE) + 1, |text|)
  }

  /** The receiver stands before a turn that the outcome of its read lets it finish by itself. */
  ghost predicate AboutToPoll(c: Config, s: State, i: nat, outcome: ReadOutcome, contents: Bytes) {
    && Shape(c, s) && !s.front.panicked && i < |s.receivers| && s.receivers[i].Fetching?
    && |s.front.ring| <= c.RingCapacity() && |contents| == c.bufferSize
    && (outcome.Got? ==> outcome.n <= c.bufferSize)
    && (if outcome.Fatal? then s.front.main.Waiting? && s.front.main.signalled < c.receivers else !s.front.stopped)
    && (Sends(s.front.pool, c.valid, outcome, contents) ==> !s.front.ringClosed)
  }

  /** The turn has taken s to t, which is before the next turn unless the receiver has retired. */
  ghost predicate Polled(c: Config, s: State, t: State, i: nat, outcome: ReadOutcome, contents: Bytes)
    requires AboutToPoll(c, s, i, outcome, contents)
  {
    var pool := s.front.pool;
    var b := if pool == [] then 0 else pool[|pool| - 1];
    && |t.signals| == |s.signals| && t.signals == s.signals[i := t.signals[i]]
    && PollView(t, i)
       == AfterPoll(PollView(s, i), c.buffers, c.RingCapacity(), BufOf(), c.valid, outcome, contents,
                    BodyOf(b, if outcome.Got? then contents[..outcome.n] else []))
    && t.receivers == s.receivers[i := if Retires(pool, outcome) then Retired(b) else Fetching]
    && (b < |s.front.mem| ==> t.front.mem == if pool == [] || outcome.Fatal? then s.front.mem else s.front.mem[b := contents])
    && t.front.main == if outcome.Fatal? then Waiting(s.front.main.signalled + 1) else s.front.main
  }

  lemma OverflowNothingSteps(c: Config, p: State -> bool, s: State, i: nat, outcome: ReadOutcome, contents: Bytes)
    returns (t: State)
    requires AboutToPoll(c, s, i, outcome, contents) && Closed(c, p, TheReceiver(i)) && p(s) && s.front.pool == []
    requires !outcome.Fatal? && !Arrives(outcome)
    ensures p(t) && Polled(c, s, t, i, outcome, contents)
  {
    var who := TheReceiver(i);
    t := Then(c, p, who, s, ByReceiver(i, FetchNone));
    t := Then(c, p, who, t, ByReceiver(i, OverflowNothing));
    assert t.receivers == s.receivers[i := Fetching];
  }

  lemma OverflowSteps(c: Config, p: State -> bool, s: State, i: nat, n: nat, contents: Bytes) returns (t: State)
    requires AboutToPoll(c, s, i, Got(n), contents) && Closed(c, p, TheReceiver(i)) && p(s) && s.front.pool == []
    requires n > 0
    ensures p(t) && Polled(c, s, t, i, Got(n), contents)
  {
    var who := TheReceiver(i);
    t := Then(c, p, who, s, ByReceiver(i, FetchNone));
    t := Then(c, p, who, t, ByReceiver(i, OverflowDatagram));
    assert t.receivers == s.receivers[i := Overflowing];
    t := Then(c, p, who, t, ByReceiver(i, CountOverflow));
    assert t.receivers == s.receivers[i := Fetching];
  }

  lemma OverflowFatalRead(c: Config, p: State -> bool, s: State, i: nat) returns (t: State)
    requires Closed(c, p, TheReceiver(i)) && p(s) && Shape(c, s) && !s.front.panicked
    requires i < |s.receivers| && s.receivers[i].Fetching? && s.front.pool == []
    ensures p(t) && Shape(c, t) && t.receivers == s.receivers[i := SignallingFallback] && t.signals == s.signals
    ensures t.front == s.front.(early := t.front.early)
  {
    t := Then(c, p, TheReceiver(i), s, ByReceiver(i, FetchNone));
    t := Then(c, p, TheReceiver(i), t, ByReceiver(i, OverflowFatal));
  }

  lemma OverflowFatalSteps(c: Config, p: State -> bool, s: State, i: nat, contents: Bytes) returns (t: State)
    requires AboutToPoll(c, s, i, Fatal, contents) && Closed(c, p, TheReceiver(i)) && p(s) && s.front.pool == []
    ensures p(t) && Polled(c, s, t, i, Fatal, contents)
  {
    t := OverflowFatalRead(c, p, s, i);
    t := Then(c, p, TheReceiver(i), t, ByReceiver(i, SignalOverflow));
    t := Then(c, p, TheReceiver(i), t, ByReceiver(i, CountOverflow));
    assert t.receivers == s.receivers[i := Fetching];
  }

  lemma RetireSteps(c: Config, p: State -> bool, s: State, i: nat, contents: Bytes) returns (t: State)
    requires AboutToPoll(c, s, i, Fatal, contents) && Closed(c, p, TheReceiver(i)) && p(s) && s.front.pool != []
    ensures p(t) && Polled(c, s, t, i, Fatal, contents)
  {
    var who := TheReceiver(i);
    t := Then(c, p, who, s, ByReceiver(i, FetchBuffer));
    t := Then(c, p, who, t, ByReceiver(i, ReadFatal));
    t := Then(c, p, who, t, ByReceiver(i, SignalAndRetire));
  }

  lemma QuietSteps(c: Config, p: State -> bool, s: State, i: nat, outcome: ReadOutcome, contents: Bytes) returns (t: State)
    requires AboutToPoll(c, s, i, outcome, contents) && Closed(c, p, TheReceiver(i)) && p(s) && s.front.pool != []
    requires !outcome.Fatal? && !Arrives(outcome)
    ensures p(t) && Polled(c, s, t, i, outcome, contents)
  {
    var who := TheReceiver(i);
    t := Then(c, p, who, s, ByReceiver(i, FetchBuffer));
    t := Then(c, p, who, t, ByReceiver(i, ReadNothing(contents)));
    t := Then(c, p, who, t, ByReceiver(i, Discard));
    assert t.receivers == s.receivers[i := Fetching];
  }

  lemma ReadSteps(c: Config, p: State -> bool, s: State, i: nat, n: nat, contents: Bytes) returns (t: State)
    requires AboutToPoll(c, s, i, Got(n), contents) && Closed(c, p, TheReceiver(i)) && p(s) && s.front.pool != [] && n > 0
    ensures p(t) && Shape(c, t) && t.signals == s.signals
    ensures var top := |s.front.pool| - 1;
      var b := s.front.pool[top];
      && b < c.buffers && t.receivers == s.receivers[i := Parsing(b, n, contents[..n])]
      && t.front == s.front.(pool := s.front.pool[..top], mem := s.front.mem[b := contents],
                             received := s.front.received + 1)
  {
    t := Then(c, p, TheReceiver(i), s, ByReceiver(i, FetchBuffer));
    t := Then(c, p, TheReceiver(i), t, ByReceiver(i, ReadDatagram(n, contents)));
  }

  lemma RefuseSteps(c: Config, p: State -> bool, s: State, i: nat, n: nat, contents: Bytes) returns (t: State)
    requires AboutToPoll(c, s, i, Got(n), contents) && Closed(c, p, TheReceiver(i)) && p(s) && s.front.pool != [] && n > 0
    requires !Pipeline.Acceptable(c, contents[..n])
    ensures p(t) && Polled(c, s, t, i, Got(n), contents)
  {
    t := ReadSteps(c, p, s, i, n, contents);
    t := Then(c, p, TheReceiver(i), t, ByReceiver(i, Refuse));
    t := Then(c, p, TheReceiver(i), t, ByReceiver(i, Reject));
    assert t.receivers == s.receivers[i := Fetching];
  }

  lemma AcceptSteps(c: Config, p: State -> bool, s: State, i: nat, n: nat, contents: Bytes) returns (t: State)
    requires AboutToPoll(c, s, i, Got(n), contents) && Closed(c, p, TheReceiver(i)) && p(s) && s.front.pool != [] && n > 0
    requires Pipeline.Acceptable(c, contents[..n])
    ensures p(t) && Polled(c, s, t, i, Got(n), contents)
  {
    var b, text := s.front.pool[|s.front.pool| - 1], contents[..n];
    t := ReadSteps(c, p, s, i, n, contents);
    t := Then(c, p, TheReceiver(i), t, ByReceiver(i, Accept));
    assert t.receivers == s.receivers[i := Sending(BodyOf(b, text), text)];
    t := SendTurn(c, p, t, i);
    assert t.receivers == s.receivers[i := Fetching];
  }

  /** A turn of a receiver, whatever its read comes to and whichever buffer it has: Daemon.PollOnce. */
  lemma PollTurn(c: Config, s: State, i: nat, outcome: ReadOutcome, contents: Bytes)
    requires AboutToPoll(c, s, i, outcome, contents)
    ensures exists t :: Leads(c, s, t, TheReceiver(i)) && Polled(c, s, t, i, outcome, contents)
  {
    var p := From(c, s, TheReceiver(i));
    FromIsClosed(c, s, TheReceiver(i));
    var t;
    if outcome.Fatal? {
      if s.front.pool == [] {
        t := OverflowFatalSteps(c, p, s, i, contents);
      } else {
        t := RetireSteps(c, p, s, i, contents);
      }
    } else if s.front.pool == [] {
      if Arrives(outcome) {
        t := OverflowSteps(c, p, s, i, outcome.n, contents);
      } else {
        t := OverflowNothingSteps(c, p, s, i, outcome, contents);
      }
    } else if !Arrives(outcome) {
      t := QuietSteps(c, p, s, i, outcome, contents);
    } else if Pipeline.Acceptable(c, contents[..outcome.n]) {
      t := AcceptSteps(c, p, s, i, outcome.n, contents);
    } else {
      t := RefuseSteps(c, p, s, i, outcome.n, contents);
    }
    assert Leads(c, s, t, TheReceiver(i)) && Polled(c, s, t, i, outcome, contents);
  }
}
