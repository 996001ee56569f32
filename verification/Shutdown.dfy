/** The closing handshake: who has finished when a channel is closed, and what is left behind. */
module Shutdown {
  import opened Common
  import opened Pipeline

  ghost function Retirement(r: Receiver): nat {
    if r.Retired? then 1 else 0
  }

  ghost function Departure(p: Poller): nat {
    if p.Gone? then 1 else 0
  }

  ghost function Itself(n: nat): nat {
    n
  }

  /** The done signals main has received. */
  ghost function SignalsSeen(c: Config, m: Main): nat {
    if m.Waiting? then m.signalled else c.receivers
  }

  /** Main counts retired receivers and, by mistake, fatal reads that hit the fallback buffer. */
  ghost predicate SignalsAddUp(c: Config, s: State) {
    && |s.signals| == |s.receivers|
    && SignalsSeen(c, s.front.main) == Sum(Retirement, s.receivers) + s.front.fatalFallbacks
    && SignalsSeen(c, s.front.main) == Sum(Itself, s.signals)
    && forall i :: 0 <= i < |s.receivers| ==> s.signals[i] >= Retirement(s.receivers[i])
  }

  /** main, the telemetry goroutine and the processor agree on how far the shutdown is. */
  ghost predicate InStep(s: State) {
    && (s.front.ringClosed <==> !s.front.main.Waiting?)
    && (s.back.processor.ProcessorExited? <==> s.front.main.AwaitingTelemetry? || s.front.main.Finished?)
    && match s.front.main
       case Waiting(_) => s.telemetry.Asleep? || s.telemetry == Pushing(false)
       case Quitting => s.telemetry.Asleep? || s.telemetry == Pushing(false)
       case AwaitingProcessor => s.telemetry == Pushing(true) || s.telemetry.Announcing?
       case AwaitingTelemetry => s.telemetry == Pushing(true) || s.telemetry.Announcing?
       case Finished => s.telemetry.Ended?
  }

  /** The processor has seen the ring closed and empty. */
  ghost predicate SawClose(p: Processor) {
    match p
    case Copying(_, _, last) => last
    case Releasing(_, _, last) => last
    case Offering(_, _, last) => last
    case Shedding(_, _, last) => last
    case Rearming(last) => last
    case ClosingQueue => true
    case Joining(_) => true
    case ProcessorExited => true
    case _ => false
  }

  ghost predicate Sealed(p: Processor) {
    p.Joining? || p.ProcessorExited?
  }

  /** How many pollers the processor has seen finish. */
  ghost function Joined(c: Config, p: Processor): nat {
    match p
    case Joining(k) => k
    case ProcessorExited => c.pollers
    case _ => 0
  }

  /** What is closed is drained: the ring before the last batch, the batch before the queue. */
  ghost predicate Emptied(f: Front, b: Back) {
    && (SawClose(b.processor) ==> f.ringClosed && f.ring == [])
    && (b.processor.ClosingQueue? || Sealed(b.processor) ==> b.batch == [])
    && (b.queueClosed <==> Sealed(b.processor))
  }

  /** A poller leaves once the queue is closed and empty. */
  ghost predicate LeavesLast(b: Back) {
    forall j :: 0 <= j < |b.pollers| && (b.pollers[j].Reporting? || b.pollers[j].Gone?) ==> b.queueClosed && b.queue == []
  }

  ghost predicate Drained(c: Config, f: Front, b: Back) {
    Emptied(f, b) && LeavesLast(b) && Sum(Departure, b.pollers) == Joined(c, b.processor)
  }

  /** A panic is a send on a closed ring, after a receiver was counted that had not retired. */
  ghost predicate PanicExplained(f: Front) {
    f.panicked ==> f.ringClosed && f.fatalFallbacks > 0
  }

  ghost predicate Orderly(c: Config, s: State) {
    && Shape(c, s) && SignalsAddUp(c, s) && InStep(s) && Drained(c, s.front, s.back) && PanicExplained(s.front)
  }

  lemma RetirementsAreOnes(rs: seq<Receiver>)
    ensures Sum(Retirement, rs) <= |rs|
    ensures Sum(Retirement, rs) == |rs| <==> forall i :: 0 <= i < |rs| ==> rs[i].Retired?
  {
    SumOfOnes(Retirement, rs);
  }

  /** Without a fatal read on a fallback buffer, the ring is closed only when every receiver is past its last send. */
  lemma ClosedMeansAllRetired(c: Config, s: State)
    requires Orderly(c, s) && s.front.ringClosed && s.front.fatalFallbacks == 0
    ensures forall i :: 0 <= i < |s.receivers| ==> s.receivers[i].Retired?
  {
    RetirementsAreOnes(s.receivers);
  }

  ghost function Signal(step: ReceiverStep): nat {
    if Signals(step) then 1 else 0
  }

  /** A signal is counted by main, and comes from retiring or from a fatal read on the fallback buffer. */
  lemma SignalsOfMove(c: Config, f: Front, r: Receiver, step: ReceiverStep)
    requires FrontShape(c, f) && ReceiverShape(c, r) && ReceiverEnabled(c, f, r, step)
    ensures SignalsSeen(c, ReceiverMove(c, f, r, step).front.main) == SignalsSeen(c, f.main) + Signal(step)
  {
    match step
    case SignalAndRetire =>
    case SignalOverflow =>
    case _ =>
  }

  lemma RetirementOfMove(c: Config, f: Front, r: Receiver, step: ReceiverStep)
    requires FrontShape(c, f) && ReceiverShape(c, r) && ReceiverEnabled(c, f, r, step)
    ensures var m := ReceiverMove(c, f, r, step);
      && Retirement(m.next) + m.front.fatalFallbacks == Retirement(r) + f.fatalFallbacks + Signal(step)
      && Retirement(m.next) <= Retirement(r) + Signal(step)
  {
    match step
    case SignalAndRetire =>
    case SignalOverflow =>
    case _ =>
  }

  /** A receiver closes nothing, and does not refill a closed ring. */
  lemma ClosingOfMove(c: Config, f: Front, r: Receiver, step: ReceiverStep)
    requires FrontShape(c, f) && ReceiverShape(c, r) && ReceiverEnabled(c, f, r, step)
    ensures var m := ReceiverMove(c, f, r, step);
      && m.front.ringClosed == f.ringClosed && (m.front.main.Waiting? <==> f.main.Waiting?)
      && (!f.main.Waiting? ==> m.front.main == f.main)
      && (f.ringClosed && f.ring == [] ==> m.front.ring == [])
  {
    match step
    case SignalAndRetire =>
    case SignalOverflow =>
    case Evict =>
    case Send =>
    case _ =>
  }

  lemma ReceiverKeepsSignals(c: Config, s: State, i: nat, step: ReceiverStep)
    requires Shape(c, s) && SignalsAddUp(c, s)
    requires i < |s.receivers| && ReceiverEnabled(c, s.front, s.receivers[i], step)
    ensures SignalsAddUp(c, ReceiverApply(c, s, i, step))
  {
    var m := ReceiverMove(c, s.front, s.receivers[i], step);
    SignalsOfMove(c, s.front, s.receivers[i], step);
    RetirementOfMove(c, s.front, s.receivers[i], step);
    SumUpdate(Retirement, s.receivers, i, m.next);
    SumUpdate(Itself, s.signals, i, s.signals[i] + 1);
  }

  /** Only a receiver that finds the ring closed panics. */
  lemma PanicsOfMove(c: Config, f: Front, r: Receiver, step: ReceiverStep)
    requires FrontShape(c, f) && ReceiverShape(c, r) && ReceiverEnabled(c, f, r, step) && !f.panicked
    ensures ReceiverMove(c, f, r, step).front.panicked <==> step.SendOnClosed? || step.EvictOnClosed?
    ensures step.SendOnClosed? || step.EvictOnClosed? ==> f.ringClosed && !r.Retired?
  {
  }

  lemma ReceiverKeepsPanicExplained(c: Config, s: State, i: nat, step: ReceiverStep)
    requires Orderly(c, s) && !s.front.panicked
    requires i < |s.receivers| && ReceiverEnabled(c, s.front, s.receivers[i], step)
    ensures PanicExplained(ReceiverApply(c, s, i, step).front)
  {
    PanicsOfMove(c, s.front, s.receivers[i], step);
    RetirementOfMove(c, s.front, s.receivers[i], step);
    ClosingOfMove(c, s.front, s.receivers[i], step);
    if step.SendOnClosed? || step.EvictOnClosed? {
      if s.front.fatalFallbacks == 0 {
        ClosedMeansAllRetired(c, s);
      }
    }
  }

  lemma ReceiverKeepsOrderly(c: Config, s: State, i: nat, step: ReceiverStep)
    requires Orderly(c, s) && !s.front.panicked
    requires i < |s.receivers| && ReceiverEnabled(c, s.front, s.receivers[i], step)
    ensures Orderly(c, ReceiverApply(c, s, i, step))
  {
    ReceiverApplyKeepsShape(c, s, i, step);
    ReceiverKeepsSignals(c, s, i, step);
    ReceiverKeepsPanicExplained(c, s, i, step);
    ClosingOfMove(c, s.front, s.receivers[i], step);
  }

  lemma ProcessorKeepsEmptied(c: Config, f: Front, b: Back, step: ProcessorStep)
    requires FrontShape(c, f) && BackShape(c, b) && Emptied(f, b) && ProcessorEnabled(c, f, b, step)
    ensures Emptied(ProcessorFront(c, f, b, step), ProcessorBack(c, f, b, step))
    ensures !step.OfferOnClosed?
  {
  }

  lemma ProcessorKeepsLeaving(c: Config, f: Front, b: Back, step: ProcessorStep)
    requires FrontShape(c, f) && BackShape(c, b) && Drained(c, f, b) && ProcessorEnabled(c, f, b, step)
    ensures var t := ProcessorBack(c, f, b, step);
      LeavesLast(t) && Sum(Departure, t.pollers) == Joined(c, t.processor)
  {
    match step
    case JoinPoller(j) => SumUpdate(Departure, b.pollers, j, Gone);
    case Offer =>
    case Shed =>
    case CloseQueue =>
    case AnnounceDone =>
    case _ =>
  }

  lemma ProcessorKeepsDrained(c: Config, f: Front, b: Back, step: ProcessorStep)
    requires FrontShape(c, f) && BackShape(c, b) && Drained(c, f, b) && ProcessorEnabled(c, f, b, step)
    ensures Drained(c, ProcessorFront(c, f, b, step), ProcessorBack(c, f, b, step))
    ensures !step.OfferOnClosed?
  {
    ProcessorKeepsEmptied(c, f, b, step);
    ProcessorKeepsLeaving(c, f, b, step);
  }

  lemma ProcessorKeepsOrderly(c: Config, s: State, step: ProcessorStep)
    requires Orderly(c, s) && !s.front.panicked && ProcessorEnabled(c, s.front, s.back, step)
    ensures Orderly(c, ProcessorApply(c, s, step))
  {
    ProcessorApplyKeepsShape(c, s, step);
    ProcessorKeepsDrained(c, s.front, s.back, step);
  }

  lemma PollerKeepsOrderly(c: Config, s: State, j: nat, step: PollerStep)
    requires Orderly(c, s) && PollerEnabled(s.back, j, step)
    ensures Orderly(c, s.(back := PollerBack(s.back, j, step)))
  {
    var b := s.back;
    var t := PollerBack(b, j, step);
    SumUpdate(Departure, b.pollers, j, t.pollers[j]);
    assert t.pollers == b.pollers[j := t.pollers[j]];
  }

  lemma ControlKeepsOrderly(c: Config, s: State, step: ControlStep)
    requires Orderly(c, s) && !s.front.panicked && ControlEnabled(c, s, step)
    ensures Orderly(c, ControlApply(c, s, step))
  {
  }

  lemma StepKeepsOrderly(c: Config, s: State, a: Action)
    requires Orderly(c, s) && Enabled(c, s, a)
    ensures Orderly(c, Apply(c, s, a))
  {
    match a
    case ByReceiver(i, step) => ReceiverKeepsOrderly(c, s, i, step);
    case ByProcessor(step) => ProcessorKeepsOrderly(c, s, step);
    case ByPoller(j, step) => PollerKeepsOrderly(c, s, j, step);
    case ByControl(step) => ControlKeepsOrderly(c, s, step);
  }

  lemma InitiallyOrderly(c: Config)
    ensures Orderly(c, Init(c))
  {
    var s := Init(c);
    SumOfZeros(Retirement, s.receivers);
    SumOfZeros(Itself, s.signals);
    SumOfZeros(Departure, s.back.pollers);
  }

  /** Counters that are at least as large one by one, and equal in sum, are equal one by one. */
  lemma {:induction false} EqualSums(rs: seq<Receiver>, signals: seq<nat>)
    requires |rs| == |signals|
    requires forall i :: 0 <= i < |rs| ==> signals[i] >= Retirement(rs[i])
    ensures Sum(Itself, signals) >= Sum(Retirement, rs)
    ensures Sum(Itself, signals) == Sum(Retirement, rs) <==>
      forall i :: 0 <= i < |rs| ==> signals[i] == Retirement(rs[i])
  {
    if rs != [] {
      EqualSums(rs[1..], signals[1..]);
      assert forall i :: 0 < i < |rs| ==> rs[i] == rs[1..][i - 1] && signals[i] == signals[1..][i - 1];
      assert forall i :: 0 <= i < |rs| - 1 ==> rs[1..][i] == rs[i + 1] && signals[1..][i] == signals[i + 1];
    }
  }
}
