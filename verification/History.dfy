/**
 What a run did can be read off its actions. The counts and histories of the state it ends in say just
 that: each datagram, verdict and batch is counted where it belongs, and the last telemetry round is run.
 */
module History {
  import opened Common
  import opened Flow
  import opened Invariant
  import opened Laws
  import opened Pipeline
  import opened Util

  // Datagrams: counts

  ghost function Arrivals(a: Action): nat {
    One(a.ByReceiver? && (a.receiverStep.ReadDatagram? || a.receiverStep.OverflowDatagram?))
  }

  ghost function Acceptances(a: Action): nat {
    One(a.ByReceiver? && a.receiverStep.Accept?)
  }

  ghost function Refusals(a: Action): nat {
    One(a.ByReceiver? && a.receiverStep.Refuse?)
  }

  /** Datagrams and fatal reads that come when the pool is empty. */
  ghost function Losses(a: Action): nat {
    One(a.ByReceiver? && (a.receiverStep.OverflowDatagram? || a.receiverStep.SignalOverflow?))
  }

  ghost function FatalLosses(a: Action): nat {
    One(a.ByReceiver? && a.receiverStep.SignalOverflow?)
  }

  ghost function Evictions(a: Action): nat {
    One(a.ByReceiver? && a.receiverStep.Evict?)
  }

  ghost function BeingRejected(r: Receiver): nat {
    One(r.Rejecting?)
  }

  ghost function BeingLost(r: Receiver): nat {
    One(r.Overflowing?)
  }

  /** The receivers' counts are those of the actions of the run; a refused or lost datagram may still be about to be counted. */
  ghost predicate Booked(s: State, run: seq<Action>) {
    && s.front.received == Sum(Arrivals, run) && s.front.counted == Sum(Acceptances, run)
    && s.front.truncated == Sum(Evictions, run) && s.front.fatalFallbacks == Sum(FatalLosses, run)
    && s.front.rejected + Sum(BeingRejected, s.receivers) == Sum(Refusals, run)
    && s.front.overflowed + Sum(BeingLost, s.receivers) == Sum(Losses, run)
  }

  lemma CountsOfMove(c: Config, f: Front, r: Receiver, i: nat, step: ReceiverStep)
    requires FrontShape(c, f) && ReceiverShape(c, r) && ReceiverEnabled(c, f, r, step)
    ensures var m, a := ReceiverMove(c, f, r, step), ByReceiver(i, step);
      && m.front.received == f.received + Arrivals(a) && m.front.counted == f.counted + Acceptances(a)
      && m.front.truncated == f.truncated + Evictions(a)
      && m.front.fatalFallbacks == f.fatalFallbacks + FatalLosses(a)
  {
    match step
    case ReadDatagram(_, _) =>
    case OverflowDatagram =>
    case Accept =>
    case Evict =>
    case SignalOverflow =>
    case _ =>
  }

  lemma VerdictsOfMove(c: Config, f: Front, r: Receiver, i: nat, step: ReceiverStep)
    requires FrontShape(c, f) && ReceiverShape(c, r) && ReceiverEnabled(c, f, r, step)
    ensures var m, a := ReceiverMove(c, f, r, step), ByReceiver(i, step);
      && m.front.rejected + BeingRejected(m.next) == f.rejected + BeingRejected(r) + Refusals(a)
      && m.front.overflowed + BeingLost(m.next) == f.overflowed + BeingLost(r) + Losses(a)
  {
    match step
    case OverflowDatagram =>
    case SignalOverflow =>
    case CountOverflow =>
    case Refuse =>
    case Reject =>
    case _ =>
  }

  lemma BookedAppend(run: seq<Action>, a: Action)
    ensures Sum(Arrivals, run + [a]) == Sum(Arrivals, run) + Arrivals(a)
    ensures Sum(Acceptances, run + [a]) == Sum(Acceptances, run) + Acceptances(a)
    ensures Sum(Refusals, run + [a]) == Sum(Refusals, run) + Refusals(a)
    ensures Sum(Losses, run + [a]) == Sum(Losses, run) + Losses(a)
    ensures Sum(FatalLosses, run + [a]) == Sum(FatalLosses, run) + FatalLosses(a)
    ensures Sum(Evictions, run + [a]) == Sum(Evictions, run) + Evictions(a)
  {
    SumAppend(Arrivals, run, a);
    SumAppend(Acceptances, run, a);
    SumAppend(Refusals, run, a);
    SumAppend(Losses, run, a);
    SumAppend(FatalLosses, run, a);
    SumAppend(Evictions, run, a);
  }

  lemma StepKeepsBooked(c: Config, s: State, run: seq<Action>, a: Action)
    requires Shape(c, s) && Enabled(c, s, a) && Booked(s, run)
    ensures Booked(Apply(c, s, a), run + [a])
  {
    BookedAppend(run, a);
    match a
    case ByReceiver(i, step) =>
      var m := ReceiverMove(c, s.front, s.receivers[i], step);
      CountsOfMove(c, s.front, s.receivers[i], i, step);
      VerdictsOfMove(c, s.front, s.receivers[i], i, step);
      SumUpdate(BeingRejected, s.receivers, i, m.next);
      SumUpdate(BeingLost, s.receivers, i, m.next);
    case _ => OthersKeepFront(c, s, a);
  }

  /** In every run the receivers' counts are exactly what its actions bring. */
  lemma {:induction false} CountsMatchTheRun(c: Config, run: seq<Action>)
    requires After(c, Init(c), run).Some?
    ensures Booked(After(c, Init(c), run).value, run)
  {
    if run == [] {
      SumOfZeros(BeingRejected, Init(c).receivers);
      SumOfZeros(BeingLost, Init(c).receivers);
    } else {
      var shorter, t, a := LastStep(c, Init(c), run);
      CountsMatchTheRun(c, shorter);
      StepKeepsBooked(c, t, shorter, a);
    }
  }

  // Signals

  ghost function SignalsBy(i: nat): Action -> nat {
    (a: Action) => One(a.ByReceiver? && a.i == i && Signals(a.receiverStep))
  }

  lemma SignalOfStep(c: Config, s: State, a: Action, i: nat)
    requires Shape(c, s) && Enabled(c, s, a) && i < |s.signals|
    ensures |Apply(c, s, a).signals| == |s.signals| && Apply(c, s, a).signals[i] == s.signals[i] + SignalsBy(i)(a)
  {
  }

  /** What main is told by receiver i is what the run's actions of i signal. */
  lemma {:induction false} SignalsMatchTheRun(c: Config, run: seq<Action>, i: nat)
    requires After(c, Init(c), run).Some? && i < c.receivers
    ensures After(c, Init(c), run).value.signals[i] == Sum(SignalsBy(i), run)
  {
    if run != [] {
      var shorter, t, a := LastStep(c, Init(c), run);
      SignalsMatchTheRun(c, shorter, i);
      SignalOfStep(c, t, a, i);
      SumAppend(SignalsBy(i), shorter, a);
    }
  }

  // Datagrams: contents

  /** What receiver i has read last, after one more action. */
  ghost function NextRead(last: Option<Bytes>, a: Action, i: nat): Option<Bytes> {
    match a
    case ByReceiver(j, ReadDatagram(n, contents)) => if j == i && n <= |contents| then Some(contents[..n]) else last
    case _ => last
  }

  /** The datagram that receiver i has read last. */
  ghost function LastRead(run: seq<Action>, i: nat): Option<Bytes> {
    if run == [] then None else NextRead(LastRead(run[..|run| - 1], i), run[|run| - 1], i)
  }

  /** The text is a datagram that some receiver reads in the run. */
  ghost predicate ReadIn(run: seq<Action>, text: Bytes) {
    exists k :: 0 <= k < |run| && Reads(run[k], text)
  }

  ghost predicate Reads(a: Action, text: Bytes) {
    a.ByReceiver? && a.receiverStep.ReadDatagram? && a.receiverStep.n <= |a.receiverStep.contents|
    && a.receiverStep.contents[..a.receiverStep.n] == text
  }

  lemma {:induction false} LastReadIsRead(run: seq<Action>, i: nat)
    ensures LastRead(run, i).Some? ==> ReadIn(run, LastRead(run, i).value)
  {
    if run != [] && LastRead(run, i).Some? {
      var shorter := run[..|run| - 1];
      LastReadIsRead(shorter, i);
      if Reads(run[|run| - 1], LastRead(run, i).value) {
      } else {
        ReadInLonger(shorter, run, LastRead(run, i).value);
      }
    }
  }

  lemma ReadInLonger(run: seq<Action>, longer: seq<Action>, text: Bytes)
    requires run <= longer && ReadIn(run, text)
    ensures ReadIn(longer, text)
  {
    var k :| 0 <= k < |run| && Reads(run[k], text);
    assert longer[k] == run[k];
  }

  /** The body that an action puts on the ring, if it is a send. */
  ghost function BodySent(last: Option<Bytes>, a: Action): seq<Bytes> {
    if a.ByReceiver? && a.receiverStep.Send? then [if last.Some? then Body(last.value, NEWLINE) else []] else []
  }

  /** The bodies of the datagrams that the run's sends are of, in order. */
  ghost function SentBodies(run: seq<Action>): seq<Bytes> {
    if run == [] then []
    else
      var shorter, a := run[..|run| - 1], run[|run| - 1];
      SentBodies(shorter) + BodySent(if a.ByReceiver? then LastRead(shorter, a.i) else None, a)
  }

  /** The datagram a receiver is working on. */
  ghost function InWork(r: Receiver): Option<Bytes> {
    match r
    case Parsing(_, _, datagram) => Some(datagram)
    case Sending(_, datagram) => Some(datagram)
    case Evicting(_, datagram) => Some(datagram)
    case Recycling(_, _, datagram) => Some(datagram)
    case _ => None
  }

  ghost predicate Remembered(s: State, run: seq<Action>) {
    && s.front.pushed == SentBodies(run)
    && forall i :: 0 <= i < |s.receivers| && InWork(s.receivers[i]).Some? ==> LastRead(run, i) == InWork(s.receivers[i])
  }

  /** A receiver works on what it has read, and pushes the body of that. */
  lemma MoveRemembers(c: Config, f: Front, r: Receiver, i: nat, step: ReceiverStep, last: Option<Bytes>)
    requires FrontShape(c, f) && ReceiverShape(c, r) && ReceiverEnabled(c, f, r, step)
    requires InWork(r).Some? ==> last == InWork(r)
    ensures var m, a := ReceiverMove(c, f, r, step), ByReceiver(i, step);
      m.front.pushed == f.pushed + BodySent(last, a) && (InWork(m.next).Some? ==> NextRead(last, a, i) == InWork(m.next))
  {
    match step
    case ReadDatagram(_, _) =>
    case Accept =>
    case Send =>
    case _ =>
  }

  lemma StepRemembers(c: Config, s: State, run: seq<Action>, a: Action)
    requires Shape(c, s) && Enabled(c, s, a) && Remembered(s, run)
    ensures Remembered(Apply(c, s, a), run + [a])
  {
    var longer := run + [a];
    assert longer[..|longer| - 1] == run;
    if a.ByReceiver? {
      MoveRemembers(c, s.front, s.receivers[a.i], a.i, a.receiverStep, LastRead(run, a.i));
    } else {
      OthersKeepFront(c, s, a);
    }
  }

  lemma {:induction false} RunsAreRemembered(c: Config, run: seq<Action>)
    requires After(c, Init(c), run).Some?
    ensures Remembered(After(c, Init(c), run).value, run)
  {
    if run != [] {
      var shorter, t, a := LastStep(c, Init(c), run);
      RunsAreRemembered(c, shorter);
      StepRemembers(c, t, shorter, a);
    }
  }

  /** A receiver accepts, and sends, only datagrams that are well formed, and refuses only others. */
  ghost predicate RightVerdict(c: Config, before: seq<Action>, a: Action) {
    match a
    case ByReceiver(i, Accept) => LastRead(before, i).Some? && WellFormed(c.valid, LastRead(before, i).value)
    case ByReceiver(i, Refuse) => LastRead(before, i).Some? && !WellFormed(c.valid, LastRead(before, i).value)
    case ByReceiver(i, Send) => LastRead(before, i).Some? && WellFormed(c.valid, LastRead(before, i).value)
    case _ => true
  }

  lemma VerdictOfMove(c: Config, f: Front, r: Receiver, i: nat, step: ReceiverStep, before: seq<Action>)
    requires FrontShape(c, f) && ReceiverShape(c, r) && ReceiverEnabled(c, f, r, step)
    requires Faithful(c, f.mem, r) && (InWork(r).Some? ==> LastRead(before, i) == InWork(r))
    ensures RightVerdict(c, before, ByReceiver(i, step))
  {
    if InWork(r).Some? {
      AcceptableExactlyIf(c.valid, r.datagram);
    }
  }

  lemma NextVerdictIsRight(c: Config, run: seq<Action>, a: Action)
    requires c.Wired() && After(c, Init(c), run).Some? && Enabled(c, After(c, Init(c), run).value, a)
    ensures RightVerdict(c, run, a)
  {
    var s := After(c, Init(c), run).value;
    RunsAreRemembered(c, run);
    ReachableIsGood(c, s);
    if a.ByReceiver? {
      VerdictOfMove(c, s.front, s.receivers[a.i], a.i, a.receiverStep, run);
    }
  }

  /** In every run each verdict is right. */
  lemma {:induction false} EveryVerdictIsRight(c: Config, run: seq<Action>, k: nat)
    requires c.Wired() && After(c, Init(c), run).Some? && k < |run|
    ensures RightVerdict(c, run[..k], run[k])
  {
    var shorter, t, a := LastStep(c, Init(c), run);
    if k == |run| - 1 {
      NextVerdictIsRight(c, shorter, a);
      assert run[..k] == shorter;
    } else {
      EveryVerdictIsRight(c, shorter, k);
      assert shorter[..k] == run[..k] && shorter[k] == run[k];
    }
  }

  /** The body is that of a well-formed datagram read in the run. */
  ghost predicate ComesFrom(c: Config, run: seq<Action>, body: Bytes) {
    exists text :: ReadIn(run, text) && WellFormed(c.valid, text) && body == Body(text, NEWLINE) && body != []
  }

  /** Every body put on the ring is that of a well-formed datagram that was read. */
  lemma {:induction false} EveryPushedBodyWasRead(c: Config, run: seq<Action>, k: nat)
    requires c.Wired() && After(c, Init(c), run).Some? && k < |SentBodies(run)|
    ensures After(c, Init(c), run).value.front.pushed == SentBodies(run)
    ensures ComesFrom(c, run, SentBodies(run)[k])
  {
    RunsAreRemembered(c, run);
    var shorter, t, a := LastStep(c, Init(c), run);
    assert run[..|run| - 1] == shorter;
    if k < |SentBodies(shorter)| {
      EveryPushedBodyWasRead(c, shorter, k);
      var text :| ReadIn(shorter, text) && WellFormed(c.valid, text)
        && SentBodies(shorter)[k] == Body(text, NEWLINE) && SentBodies(shorter)[k] != [];
      ReadInLonger(shorter, run, text);
    } else {
      NextVerdictIsRight(c, shorter, a);
      var text := LastRead(shorter, a.i).value;
      LastReadIsRead(shorter, a.i);
      ReadInLonger(shorter, run, text);
      AcceptableExactlyIf(c.valid, text);
    }
  }
}
