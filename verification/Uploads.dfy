/** Which batches a run has uploaded, given up or dropped, and what the pollers and the processor have counted for them. */
module Uploads {
  import opened Common
  import opened Laws
  import opened Pipeline

  /** The queue of batches when the run has come this far. */
  ghost function QueueAfter(c: Config, run: seq<Action>): seq<seq<Bytes>> {
    match After(c, Init(c), run)
    case Some(s) => s.back.queue
    case None => []
  }

  /** How many segments the oldest queued batch has. */
  ghost function OldestSize(queue: seq<seq<Bytes>>): nat {
    if queue == [] then 0 else |queue[0]|
  }

  /** The batch that poller j has taken last: the oldest one queued just before. */
  ghost function LastTaken(c: Config, run: seq<Action>, j: nat): Option<seq<Bytes>> {
    if run == [] then None
    else
      var before, a := run[..|run| - 1], run[|run| - 1];
      if a == ByPoller(j, TakeBatch) && QueueAfter(c, before) != [] then Some(QueueAfter(c, before)[0])
      else LastTaken(c, before, j)
  }

  ghost function TakenSize(c: Config, run: seq<Action>, j: nat): nat {
    match LastTaken(c, run, j)
    case Some(batch) => |batch|
    case None => 0
  }

  /** What becomes of a batch once it has left the processor. */
  datatype Fate = Uploaded | GivenUp | Dropped

  /** How many segments the action settles in that way, after the actions before it. */
  ghost function Settling(c: Config, before: seq<Action>, a: Action, fate: Fate): nat {
    match a
    case ByPoller(j, PutSucceeded(_)) => if fate.Uploaded? then TakenSize(c, before, j) else 0
    case ByPoller(j, PutFailed) => if fate.GivenUp? then TakenSize(c, before, j) else 0
    case ByProcessor(Shed) => if fate.Dropped? then OldestSize(QueueAfter(c, before)) else 0
    case _ => 0
  }

  /** How many segments the run settles in that way. */
  ghost function Settled(c: Config, run: seq<Action>, fate: Fate): nat {
    if run == [] then 0
    else
      var before := run[..|run| - 1];
      Settled(c, before, fate) + Settling(c, before, run[|run| - 1], fate)
  }

  /** The segments that the backend reports as unprocessed, up to the first without an id. */
  ghost function Reported(a: Action): nat {
    match a
    case ByPoller(_, PutSucceeded(unprocessed)) => unprocessed
    case _ => 0
  }

  ghost function Takings(a: Action): nat {
    One(a.ByProcessor? && (a.processorStep.TakeSegment? || a.processorStep.TakeLastSegment?))
  }

  ghost predicate PuttingTaken(c: Config, pollers: seq<Poller>, run: seq<Action>) {
    forall j :: 0 <= j < |pollers| && pollers[j].Putting? ==> LastTaken(c, run, j) == Some(pollers[j].batch)
  }

  /** The counts of the pollers and of the processor are what the run has settled, reported and taken. */
  ghost predicate Accounts(c: Config, b: Back, run: seq<Action>) {
    && b.sent == Settled(c, run, Uploaded) && b.failed == Settled(c, run, GivenUp) && b.shed == Settled(c, run, Dropped)
    && b.unprocessed == Sum(Reported, run) && b.processed == Sum(Takings, run)
  }

  lemma OneMoreSettled(c: Config, run: seq<Action>, a: Action)
    ensures forall fate :: Settled(c, run + [a], fate) == Settled(c, run, fate) + Settling(c, run, a, fate)
    ensures Sum(Reported, run + [a]) == Sum(Reported, run) + Reported(a)
    ensures Sum(Takings, run + [a]) == Sum(Takings, run) + Takings(a)
  {
    assert (run + [a])[..|run|] == run;
    SumAppend(Reported, run, a);
    SumAppend(Takings, run, a);
  }

  lemma OneMoreTaken(c: Config, run: seq<Action>, a: Action, j: nat)
    ensures LastTaken(c, run + [a], j)
         == if a == ByPoller(j, TakeBatch) && QueueAfter(c, run) != [] then Some(QueueAfter(c, run)[0])
            else LastTaken(c, run, j)
  {
    assert (run + [a])[..|run|] == run;
  }

  lemma PollerAccounts(c: Config, b: Back, run: seq<Action>, j: nat, step: PollerStep)
    requires PollerEnabled(b, j, step) && Accounts(c, b, run) && PuttingTaken(c, b.pollers, run)
    ensures Accounts(c, PollerBack(b, j, step), run + [ByPoller(j, step)])
  {
    OneMoreSettled(c, run, ByPoller(j, step));
    match step
    case PutSucceeded(_) =>
    case PutFailed =>
    case _ =>
  }

  lemma ProcessorCounts(c: Config, f: Front, b: Back, step: ProcessorStep)
    requires FrontShape(c, f) && BackShape(c, b) && ProcessorEnabled(c, f, b, step)
    ensures var t := ProcessorBack(c, f, b, step);
      && t.sent == b.sent && t.failed == b.failed && t.unprocessed == b.unprocessed
      && t.shed == b.shed + (if step.Shed? then OldestSize(b.queue) else 0)
      && t.processed == b.processed + Takings(ByProcessor(step))
  {
    match step
    case TakeSegment =>
    case TakeLastSegment =>
    case Shed =>
    case _ =>
  }

  lemma ProcessorAccounts(c: Config, f: Front, b: Back, run: seq<Action>, step: ProcessorStep)
    requires FrontShape(c, f) && BackShape(c, b) && ProcessorEnabled(c, f, b, step)
    requires QueueAfter(c, run) == b.queue && Accounts(c, b, run)
    ensures Accounts(c, ProcessorBack(c, f, b, step), run + [ByProcessor(step)])
  {
    OneMoreSettled(c, run, ByProcessor(step));
    ProcessorCounts(c, f, b, step);
  }

  lemma PollerTakes(c: Config, b: Back, run: seq<Action>, j: nat, step: PollerStep)
    requires PollerEnabled(b, j, step) && QueueAfter(c, run) == b.queue && PuttingTaken(c, b.pollers, run)
    ensures PuttingTaken(c, PollerBack(b, j, step).pollers, run + [ByPoller(j, step)])
  {
    forall k | 0 <= k < |b.pollers|
      ensures var p := PollerBack(b, j, step).pollers[k];
        p.Putting? ==> LastTaken(c, run + [ByPoller(j, step)], k) == Some(p.batch)
    {
      OneMoreTaken(c, run, ByPoller(j, step), k);
    }
  }

  lemma OthersTakeNothing(c: Config, s: State, run: seq<Action>, a: Action)
    requires Shape(c, s) && Enabled(c, s, a) && !a.ByPoller? && PuttingTaken(c, s.back.pollers, run)
    ensures PuttingTaken(c, Apply(c, s, a).back.pollers, run + [a])
  {
    var pollers := Apply(c, s, a).back.pollers;
    forall k | 0 <= k < |pollers| && pollers[k].Putting?
      ensures LastTaken(c, run + [a], k) == Some(pollers[k].batch)
    {
      OneMoreTaken(c, run, a, k);
    }
  }

  lemma StepAccounts(c: Config, s: State, run: seq<Action>, a: Action)
    requires Shape(c, s) && Enabled(c, s, a) && QueueAfter(c, run) == s.back.queue
    requires Accounts(c, s.back, run) && PuttingTaken(c, s.back.pollers, run)
    ensures Accounts(c, Apply(c, s, a).back, run + [a])
  {
    match a
    case ByProcessor(step) => ProcessorAccounts(c, s.front, s.back, run, step);
    case ByPoller(j, step) => PollerAccounts(c, s.back, run, j, step);
    case ByReceiver(_, _) => OneMoreSettled(c, run, a);
    case ByControl(_) => OneMoreSettled(c, run, a);
  }

  /**
   In every run, sent is the size of the batches that were taken and then put with success, failed that
   of those whose put failed, shed that of those dropped from the full queue.
   */
  lemma {:induction false} UploadsMatchTheRun(c: Config, run: seq<Action>)
    requires After(c, Init(c), run).Some?
    ensures Accounts(c, After(c, Init(c), run).value.back, run)
    ensures PuttingTaken(c, After(c, Init(c), run).value.back.pollers, run)
  {
    if run != [] {
      var shorter, t, a := LastStep(c, Init(c), run);
      UploadsMatchTheRun(c, shorter);
      StepAccounts(c, t, shorter, a);
      if a.ByPoller? {
        PollerTakes(c, t.back, shorter, a.j, a.pollerStep);
      } else {
        OthersTakeNothing(c, t, shorter, a);
      }
    }
  }
}
