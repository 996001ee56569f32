/** Once the socket is closed the daemon cannot run on for ever, and cannot get stuck before it has finished. */
module Termination {
  import opened Common
  import opened Pipeline
  import opened Flow
  import opened Shutdown
  import opened Accounting
  import opened Invariant

  /** Steps a timer can cause over and over: re-arming an idle timer, and a telemetry round. */
  ghost predicate Timer(a: Action) {
    a == ByProcessor(IdleRearm) || a == ByControl(TelemetryTick)
  }

  ghost function ReceiverRank(r: Receiver): nat {
    match r
    case Retired(_) => 0
    case Signalling(_) => 1
    case SignallingFallback => 1
    case Reading(_) => 2
    case ReadingFallback => 2
    case Fetching => 3
    case Parsing(_, _, _) => 5
    case _ => 4
  }

  ghost function ProcessorRank(c: Config, b: Back): int {
    var m := |b.batch|;
    var base := c.pollers + 4;
    match b.processor
    case Selecting => base + 11 * m
    case Inspecting => base + 11 * m + 1
    case Copying(k, _, _) => base + 8 + 2 * (m - k)
    case Releasing(k, _, _) => base + 7 + 2 * (m - k)
    case Offering(_, tries, _) => if tries == 1 then base + 7 else base + 5
    case Shedding(_, _, _) => base + 6
    case Rearming(_) => base + 1
    case ClosingQueue => c.pollers + 3
    case Joining(k) => c.pollers + 2 - k
    case ProcessorExited => 0
  }

  ghost function PollerRank(p: Poller): nat {
    match p
    case Idle => 2
    case Putting(_) => 4
    case Reporting => 1
    case Gone => 0
  }

  ghost function MainRank(m: Main): nat {
    match m
    case Waiting(_) => 4
    case Quitting => 3
    case AwaitingProcessor => 2
    case AwaitingTelemetry => 1
    case Finished => 0
  }

  ghost function TelemetryRank(t: Telemetry): nat {
    match t
    case Pushing(quit) => if quit then 2 else 4
    case Asleep => 3
    case Announcing => 1
    case Ended => 0
  }

  ghost function BackRank(c: Config, b: Back): int {
    ProcessorRank(c, b) + 3 * |b.queue| + Sum(PollerRank, b.pollers)
  }

  /** What a receiver can still cause: its own steps, and the handling of the segment it sends. */
  ghost function FrontRank(c: Config, f: Front): int {
    56 * (c.receivers - SignalsSeen(c, f.main)) + 13 * |f.ring| + MainRank(f.main) + (if f.panicked then 0 else 1)
  }

  ghost function Measure(c: Config, s: State): int {
    FrontRank(c, s.front) + 14 * Sum(ReceiverRank, s.receivers) + BackRank(c, s.back) + TelemetryRank(s.telemetry)
  }

  lemma MeasureIsNatural(c: Config, s: State)
    requires Shape(c, s)
    ensures Measure(c, s) >= 0
  {
  }

  lemma ReceiverMoveShrinks(c: Config, f: Front, r: Receiver, step: ReceiverStep)
    requires FrontShape(c, f) && ReceiverShape(c, r) && ReceiverEnabled(c, f, r, step)
    requires f.stopped && !f.panicked
    requires !step.SendFindsFull? && !step.Evict? && !step.EvictNone? && !step.EvictOnClosed? && !step.Recycle?
    ensures var m := ReceiverMove(c, f, r, step);
      FrontRank(c, m.front) + 14 * ReceiverRank(m.next) < FrontRank(c, f) + 14 * ReceiverRank(r)
  {
  }

  lemma TakingShrinks(c: Config, f: Front, b: Back, step: ProcessorStep)
    requires FrontShape(c, f) && BackShape(c, b) && Batching(c, b) && ProcessorEnabled(c, f, b, step)
    requires !f.panicked && !step.IdleRearm? && (step.AnnounceDone? ==> !f.main.Waiting?)
    requires step.TakeSegment? || step.TakeLastSegment?
    ensures FrontRank(c, ProcessorFront(c, f, b, step)) + BackRank(c, ProcessorBack(c, f, b, step))
          < FrontRank(c, f) + BackRank(c, b)
  {
  }

  lemma QueueingShrinks(c: Config, f: Front, b: Back, step: ProcessorStep)
    requires FrontShape(c, f) && BackShape(c, b) && Batching(c, b) && ProcessorEnabled(c, f, b, step)
    requires !f.panicked && !step.IdleRearm? && (step.AnnounceDone? ==> !f.main.Waiting?)
    requires step.Offer? || step.OfferFindsFull? || step.OfferOnClosed? || step.Shed? || step.ShedNone?
    ensures FrontRank(c, ProcessorFront(c, f, b, step)) + BackRank(c, ProcessorBack(c, f, b, step))
          < FrontRank(c, f) + BackRank(c, b)
  {
  }

  lemma ProcessorShrinks(c: Config, f: Front, b: Back, step: ProcessorStep)
    requires FrontShape(c, f) && BackShape(c, b) && Batching(c, b) && ProcessorEnabled(c, f, b, step)
    requires !f.panicked && !step.IdleRearm? && (step.AnnounceDone? ==> !f.main.Waiting?)
    ensures FrontRank(c, ProcessorFront(c, f, b, step)) + BackRank(c, ProcessorBack(c, f, b, step))
          < FrontRank(c, f) + BackRank(c, b)
  {
    match step
    case TakeSegment => TakingShrinks(c, f, b, step);
    case TakeLastSegment => TakingShrinks(c, f, b, step);
    case Offer => QueueingShrinks(c, f, b, step);
    case OfferFindsFull => QueueingShrinks(c, f, b, step);
    case OfferOnClosed => QueueingShrinks(c, f, b, step);
    case Shed => QueueingShrinks(c, f, b, step);
    case ShedNone => QueueingShrinks(c, f, b, step);
    case JoinPoller(j) => SumUpdate(PollerRank, b.pollers, j, Gone);
    case _ =>
  }

  lemma PollerShrinks(c: Config, b: Back, j: nat, step: PollerStep)
    requires PollerEnabled(b, j, step)
    ensures BackRank(c, PollerBack(b, j, step)) < BackRank(c, b)
  {
    var t := PollerBack(b, j, step);
    SumUpdate(PollerRank, b.pollers, j, t.pollers[j]);
    assert t.pollers == b.pollers[j := t.pollers[j]];
  }

  lemma ControlShrinks(c: Config, s: State, step: ControlStep)
    requires Good(c, s) && s.front.stopped && ControlEnabled(c, s, step) && !step.TelemetryTick?
    ensures Measure(c, ControlApply(c, s, step)) < Measure(c, s)
  {
  }

  lemma ReceiverShrinks(c: Config, s: State, i: nat, step: ReceiverStep)
    requires Good(c, s) && s.front.stopped && !s.front.panicked
    requires i < |s.receivers| && ReceiverEnabled(c, s.front, s.receivers[i], step)
    ensures Measure(c, ReceiverApply(c, s, i, step)) < Measure(c, s) && ReceiverApply(c, s, i, step).front.stopped
  {
    ReceiverKeepsCalm(c, s, i, step);
    ReceiverMoveShrinks(c, s.front, s.receivers[i], step);
    SumUpdate(ReceiverRank, s.receivers, i, ReceiverMove(c, s.front, s.receivers[i], step).next);
  }

  /** After the socket is closed every step but a timer's brings the daemon closer to its end. */
  lemma StepShrinks(c: Config, s: State, a: Action)
    requires Good(c, s) && s.front.stopped && Enabled(c, s, a) && !Timer(a)
    ensures Measure(c, Apply(c, s, a)) < Measure(c, s) && Apply(c, s, a).front.stopped
  {
    match a
    case ByReceiver(i, step) => ReceiverShrinks(c, s, i, step);
    case ByProcessor(step) => ProcessorShrinks(c, s.front, s.back, step);
    case ByPoller(j, step) => PollerShrinks(c, s.back, j, step);
    case ByControl(step) => ControlShrinks(c, s, step);
  }

  lemma TimerGrowsByOne(c: Config, s: State, a: Action)
    requires Shape(c, s) && s.front.stopped && Enabled(c, s, a) && Timer(a)
    ensures Measure(c, Apply(c, s, a)) <= Measure(c, s) + 1 && Apply(c, s, a).front.stopped
    ensures a == ByProcessor(IdleRearm) ==> Apply(c, s, a) == s
  {
  }

  ghost function Working(a: Action): nat {
    if Timer(a) then 0 else 1
  }

  ghost function TelemetryRound(a: Action): nat {
    if a == ByControl(TelemetryTick) then 1 else 0
  }

  lemma StepIsBounded(c: Config, s: State, a: Action)
    requires Good(c, s) && s.front.stopped && Enabled(c, s, a)
    ensures Apply(c, s, a).front.stopped
    ensures Working(a) + Measure(c, Apply(c, s, a)) <= Measure(c, s) + TelemetryRound(a)
  {
    if Timer(a) {
      TimerGrowsByOne(c, s, a);
    } else {
      StepShrinks(c, s, a);
    }
  }

  /**
   A run after the socket is closed has at most Measure working steps, plus one for every telemetry
   round that its timer starts.
   */
  lemma {:induction false} ShutdownIsBounded(c: Config, s: State, run: seq<Action>)
    requires c.Wired() && Good(c, s) && s.front.stopped && After(c, s, run).Some?
    ensures After(c, s, run).value.front.stopped
    ensures Sum(Working, run) + Measure(c, After(c, s, run).value) <= Measure(c, s) + Sum(TelemetryRound, run)
  {
    if run != [] {
      var shorter, t, a := LastStep(c, s, run);
      ShutdownIsBounded(c, s, shorter);
      RunsStayGood(c, s, shorter);
      StepIsBounded(c, t, a);
      SumAppend(Working, shorter, a);
      SumAppend(TelemetryRound, shorter, a);
    }
  }

  /** A receiver that has not retired can always take a step, while main waits for signals and the socket is closed. */
  lemma ReceiverCanMove(c: Config, f: Front, r: Receiver) returns (step: ReceiverStep)
    requires FrontShape(c, f) && ReceiverShape(c, r) && !r.Retired?
    requires f.main.Waiting? && f.main.signalled < c.receivers
    ensures ReceiverEnabled(c, f, r, step)
  {
    match r
    case Fetching => step := if f.pool == [] then FetchNone else FetchBuffer;
    case Reading(_) => step := ReadFatal;
    case ReadingFallback => step := OverflowFatal;
    case Signalling(_) => step := SignalAndRetire;
    case SignallingFallback => step := SignalOverflow;
    case Discarding(_) => step := Discard;
    case Overflowing => step := CountOverflow;
    case Parsing(b, n, _) => step := if Acceptable(c, f.mem[b][..n]) then Accept else Refuse;
    case Rejecting(_) => step := Reject;
    case Sending(_, _) =>
      step := if f.ringClosed then SendOnClosed else if |f.ring| < c.RingCapacity() then Send else SendFindsFull;
    case Evicting(_, _) =>
      step := if f.ring != [] then Evict else if f.ringClosed then EvictOnClosed else EvictNone;
    case Recycling(_, _, _) => step := Recycle;
  }

  lemma JoiningCanMove(c: Config, s: State) returns (a: Action)
    requires Orderly(c, s) && !s.front.panicked && s.front.main.AwaitingProcessor? && s.back.processor.Joining?
    ensures Enabled(c, s, a) && !Timer(a)
  {
    var b := s.back;
    if b.processor.joined == c.pollers {
      a := ByProcessor(AnnounceDone);
    } else {
      SumOfOnes(Departure, b.pollers);
      var j: nat :| j < |b.pollers| && !b.pollers[j].Gone?;
      match b.pollers[j]
      case Idle => a := ByPoller(j, if b.queue == [] then QueueCloseSeen else TakeBatch);
      case Putting(_) => a := ByPoller(j, PutFailed);
      case Reporting => a := ByProcessor(JoinPoller(j));
    }
  }

  /** While main awaits the processor, the processor or one of the pollers can take a step. */
  lemma BackCanMove(c: Config, s: State) returns (a: Action)
    requires Orderly(c, s) && !s.front.panicked && s.front.main.AwaitingProcessor?
    ensures Enabled(c, s, a) && !Timer(a)
  {
    var f, b := s.front, s.back;
    match b.processor
    case Selecting =>
      a := ByProcessor(
        if f.ring != [] then (if |b.batch| + 1 < c.BatchSize() then TakeSegment else TakeLastSegment)
        else if b.batch == [] then CloseSeen else CloseSeenFlush);
    case Inspecting => a := ByProcessor(if f.pool == [] then PoolIsEmpty else PoolHasBuffers);
    case Copying(k, _, _) => a := ByProcessor(if k < |b.batch| then Copy else CopyDone);
    case Releasing(_, _, _) => a := ByProcessor(Release);
    case Offering(_, _, _) => a := ByProcessor(if |b.queue| < c.queueCapacity then Offer else OfferFindsFull);
    case Shedding(_, _, _) => a := ByProcessor(if b.queue == [] then ShedNone else Shed);
    case Rearming(last) => a := ByProcessor(if last then RearmLast else Rearm);
    case ClosingQueue => a := ByProcessor(CloseQueue);
    case Joining(_) => a := JoiningCanMove(c, s);
  }

  /** Until main has finished, or the program has panicked, some working step is possible. */
  lemma NeverStuck(c: Config, s: State) returns (a: Action)
    requires Good(c, s) && s.front.stopped && !s.front.panicked && !s.front.main.Finished?
    ensures Enabled(c, s, a) && !Timer(a)
  {
    match s.front.main
    case Waiting(k) =>
      if k == c.receivers {
        a := ByControl(CloseRing);
      } else {
        RetirementsAreOnes(s.receivers);
        var i: nat :| i < |s.receivers| && !s.receivers[i].Retired?;
        assert ReceiverShape(c, s.receivers[i]);
        var step := ReceiverCanMove(c, s.front, s.receivers[i]);
        a := ByReceiver(i, step);
      }
    case Quitting => a := ByControl(if s.telemetry.Asleep? then QuitTelemetry else TelemetryPushed);
    case AwaitingProcessor => a := BackCanMove(c, s);
    case AwaitingTelemetry => a := ByControl(if s.telemetry.Announcing? then TelemetryDone else TelemetryLastPushed);
  }
}
