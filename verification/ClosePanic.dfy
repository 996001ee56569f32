/**
 Exactly when closing can go wrong. A receiver whose fatal read hits the fallback buffer signals
 done and loops on, so main may close the ring while another receiver is about to send.
 */
module ClosePanic {
  import opened Common
  import opened Pipeline
  import opened Flow
  import opened Shutdown
  import opened Invariant

  /** Some datagram that fits a buffer is accepted at all. */
  ghost predicate CanAccept(c: Config) {
    exists d: Bytes :: |d| <= c.bufferSize && Acceptable(c, d)
  }

  /** A run that closes the socket before any read is fatal, and still panics. */
  ghost predicate MayPanic(c: Config) {
    exists s :: Reachable(c, s) && s.front.panicked && !s.front.early
  }

  // At most one receiver, or nothing to accept: no panic.

  /** A receiver that has seen a fatal read holds no data. */
  ghost predicate EmptyHanded(r: Receiver) {
    || r.Fetching? || r.Reading? || r.ReadingFallback? || r.Signalling? || r.SignallingFallback?
    || r.Overflowing? || r.Retired?
  }

  ghost predicate SawFatal(r: Receiver) {
    r.Signalling? || r.SignallingFallback? || r.Retired?
  }

  /** The receiver has seen a fatal read only after the socket was closed, and can send nothing once main has miscounted. */
  ghost predicate Harmless(f: Front, r: Receiver) {
    && (SawFatal(r) || f.fatalFallbacks > 0 ==> f.stopped)
    && (f.fatalFallbacks > 0 ==> EmptyHanded(r))
  }

  ghost predicate Solo(s: State) {
    && |s.receivers| <= 1
    && (!s.front.early ==>
      !s.front.panicked && forall i :: 0 <= i < |s.receivers| ==> Harmless(s.front, s.receivers[i]))
  }

  ghost predicate OnlyIfAccepting(c: Config, s: State) {
    s.front.panicked ==> CanAccept(c) && c.receivers >= 1
  }

  lemma MoveKeepsSolo(c: Config, f: Front, r: Receiver, step: ReceiverStep)
    requires FrontShape(c, f) && ReceiverShape(c, r) && ReceiverEnabled(c, f, r, step) && Harmless(f, r)
    ensures var m := ReceiverMove(c, f, r, step);
      (f.early ==> m.front.early) && (!m.front.early ==> Harmless(m.front, m.next))
  {
  }

  lemma EarlyStays(c: Config, f: Front, r: Receiver, step: ReceiverStep)
    requires FrontShape(c, f) && ReceiverShape(c, r) && ReceiverEnabled(c, f, r, step) && f.early
    ensures ReceiverMove(c, f, r, step).front.early
  {
  }

  /** Only a receiver that finds the ring closed panics. */
  lemma OnlySendsPanic(c: Config, s: State, a: Action)
    requires Good(c, s) && Enabled(c, s, a) && Apply(c, s, a).front.panicked
    ensures a.ByReceiver? && a.receiverStep.SendOnClosed?
  {
    match a
    case ByReceiver(i, step) =>
      ReceiverKeepsCalm(c, s, i, step);
      PanicsOfMove(c, s.front, s.receivers[i], step);
    case ByProcessor(step) => ProcessorKeepsDrained(c, s.front, s.back, step);
    case ByPoller(j, step) =>
    case ByControl(step) =>
  }

  /** A receiver that may send on the closed ring is not empty-handed; with one receiver, it saw a fatal read early. */
  lemma SoloPanicIsEarly(c: Config, s: State, a: Action)
    requires Good(c, s) && Solo(s) && Enabled(c, s, a) && Apply(c, s, a).front.panicked
    ensures s.front.early && a.ByReceiver?
  {
    OnlySendsPanic(c, s, a);
    if s.front.fatalFallbacks == 0 {
      ClosedMeansAllRetired(c, s);
    }
  }

  lemma ReceiverKeepsSolo(c: Config, s: State, i: nat, step: ReceiverStep)
    requires Shape(c, s) && Solo(s) && i < |s.receivers| && ReceiverEnabled(c, s.front, s.receivers[i], step)
    requires ReceiverApply(c, s, i, step).front.panicked ==> s.front.early
    ensures Solo(ReceiverApply(c, s, i, step))
  {
    if s.front.early {
      EarlyStays(c, s.front, s.receivers[i], step);
    } else {
      MoveKeepsSolo(c, s.front, s.receivers[i], step);
    }
  }

  lemma OthersKeepSolo(c: Config, s: State, a: Action)
    requires Shape(c, s) && Solo(s) && Enabled(c, s, a) && !a.ByReceiver? && !Apply(c, s, a).front.panicked
    ensures Solo(Apply(c, s, a))
  {
    var t := Apply(c, s, a);
    OthersKeepFront(c, s, a);
    forall i | 0 <= i < |t.receivers| && !t.front.early
      ensures Harmless(t.front, t.receivers[i])
    {
      assert Harmless(s.front, s.receivers[i]);
    }
  }

  lemma StepKeepsSolo(c: Config, s: State, a: Action)
    requires Good(c, s) && Solo(s) && Enabled(c, s, a)
    ensures Solo(Apply(c, s, a))
  {
    if Apply(c, s, a).front.panicked {
      SoloPanicIsEarly(c, s, a);
    }
    if a.ByReceiver? {
      ReceiverKeepsSolo(c, s, a.i, a.receiverStep);
    } else {
      OthersKeepSolo(c, s, a);
    }
  }

  lemma StepNeedsAcceptance(c: Config, s: State, a: Action)
    requires Good(c, s) && OnlyIfAccepting(c, s) && Enabled(c, s, a)
    ensures OnlyIfAccepting(c, Apply(c, s, a))
  {
    if Apply(c, s, a).front.panicked {
      OnlySendsPanic(c, s, a);
      var r := s.receivers[a.i];
      assert Faithful(c, s.front.mem, r);
      assert |r.datagram| <= c.bufferSize && Acceptable(c, r.datagram);
    }
  }

  lemma {:induction false} RunsStayUnharmed(c: Config, s: State, run: seq<Action>)
    requires c.Wired() && Good(c, s) && After(c, s, run).Some?
    requires OnlyIfAccepting(c, s) && (c.receivers <= 1 ==> Solo(s))
    ensures OnlyIfAccepting(c, After(c, s, run).value)
    ensures c.receivers <= 1 ==> Solo(After(c, s, run).value)
  {
    if run != [] {
      var shorter, t, a := LastStep(c, s, run);
      RunsStayUnharmed(c, s, shorter);
      RunsStayGood(c, s, shorter);
      StepNeedsAcceptance(c, t, a);
      if c.receivers <= 1 {
        StepKeepsSolo(c, t, a);
      }
    }
  }

  lemma NoHarm(c: Config, s: State)
    requires c.Wired() && Reachable(c, s)
    ensures s.front.panicked ==> CanAccept(c) && c.receivers >= 1
    ensures s.front.panicked && !s.front.early ==> c.receivers >= 2
  {
    var run :| After(c, Init(c), run) == Some(s);
    assert After(c, Init(c), []) == Some(Init(c));
    ReachableIsGood(c, Init(c));
    RunsStayUnharmed(c, Init(c), run);
  }

  // Two receivers and something to accept: a run that panics.

  /** The daemon is running: nothing is closed but perhaps the socket. */
  ghost predicate Running(s: State) {
    !s.front.panicked && !s.front.ringClosed && s.front.main.Waiting?
  }

  /** Receiver i reads an acceptable datagram into a pool buffer and is about to send it. */
  lemma ReceiveOne(c: Config, p: State -> bool, s: State, i: nat, d: Bytes) returns (t: State)
    requires Explores(c, p) && p(s) && Shape(c, s) && i < |s.receivers| && s.receivers[i].Fetching?
    requires !s.front.panicked && !s.front.stopped && s.front.pool != []
    requires |d| <= c.bufferSize && Acceptable(c, d)
    ensures p(t) && Shape(c, t) && t.receivers == s.receivers[i := t.receivers[i]] && t.receivers[i].Sending?
    ensures !t.front.panicked && |t.front.pool| == |s.front.pool| - 1 && t.back == s.back
    ensures t.front.main == s.front.main && t.front.ringClosed == s.front.ringClosed && t.front.ring == s.front.ring
    ensures t.front.stopped == s.front.stopped && t.front.early == s.front.early
  {
    var contents := d + seq(c.bufferSize - |d|, k => 0);
    assert contents[..|d|] == d;
    var s1 := Do(c, p, s, ByReceiver(i, FetchBuffer));
    var s2 := Do(c, p, s1, ByReceiver(i, ReadDatagram(|d|, contents)));
    t := Do(c, p, s2, ByReceiver(i, Accept));
  }

  /** Receiver 0 receives and sends one segment. */
  lemma SendOne(c: Config, p: State -> bool, s: State, d: Bytes) returns (t: State)
    requires c.Wired() && Explores(c, p) && OnlyReachable(c, p) && p(s) && Shape(c, s)
    requires |s.receivers| >= 1 && s.receivers[0].Fetching?
    requires Running(s) && !s.front.stopped && s.front.pool != []
    requires |d| <= c.bufferSize && Acceptable(c, d)
    ensures p(t) && Shape(c, t) && t.receivers == s.receivers && t.back == s.back
    ensures Running(t) && !t.front.stopped && t.front.main == s.front.main && t.front.early == s.front.early
    ensures |t.front.pool| == |s.front.pool| - 1 && |t.front.ring| == |s.front.ring| + 1
  {
    var s1 := ReceiveOne(c, p, s, 0, d);
    ReachableIsGood(c, s1);
    RingHasRoom(c, s1, 0);
    t := Do(c, p, s1, ByReceiver(0, Send));
    assert t.receivers == s.receivers;
  }

  /** Receiver 0 empties the pool by sending, while the others do nothing. */
  lemma {:induction false} EmptyPool(c: Config, p: State -> bool, s: State, d: Bytes) returns (t: State)
    requires c.Wired() && Explores(c, p) && OnlyReachable(c, p) && p(s) && Shape(c, s)
    requires |s.receivers| >= 1 && s.receivers[0].Fetching?
    requires Running(s) && !s.front.stopped && (s.front.pool != [] || s.front.ring != [])
    requires |d| <= c.bufferSize && Acceptable(c, d)
    ensures p(t) && Shape(c, t) && t.receivers == s.receivers && t.back == s.back
    ensures Running(t) && !t.front.stopped && t.front.main == s.front.main && t.front.early == s.front.early
    ensures t.front.pool == [] && t.front.ring != []
    decreases |s.front.pool|
  {
    if s.front.pool == [] {
      t := s;
    } else {
      var s1 := SendOne(c, p, s, d);
      t := EmptyPool(c, p, s1, d);
    }
  }

  /** Receiver 0 signals once and is back at the fallback buffer. */
  lemma SignalOnce(c: Config, p: State -> bool, s: State) returns (t: State)
    requires Explores(c, p) && p(s) && Shape(c, s) && |s.receivers| >= 1 && s.receivers[0].ReadingFallback?
    requires Running(s) && s.front.pool == [] && s.front.main.signalled < c.receivers
    ensures p(t) && Shape(c, t) && t.receivers == s.receivers && t.back == s.back
    ensures Running(t) && t.front.main.signalled == s.front.main.signalled + 1
    ensures t.front.pool == [] && t.front.ring == s.front.ring && t.front.stopped == s.front.stopped
    ensures s.front.stopped ==> t.front.early == s.front.early
  {
    var s1 := Do(c, p, s, ByReceiver(0, OverflowFatal));
    var s2 := Do(c, p, s1, ByReceiver(0, SignalOverflow));
    assert s2.receivers == s.receivers[0 := Overflowing];
    var s3 := Do(c, p, s2, ByReceiver(0, CountOverflow));
    t := Do(c, p, s3, ByReceiver(0, FetchNone));
    assert t.receivers == s.receivers;
  }

  /** Receiver 0 signals until main has counted as many signals as there are receivers. */
  lemma {:induction false} SignalOn(c: Config, p: State -> bool, s: State) returns (t: State)
    requires Explores(c, p) && p(s) && Shape(c, s) && |s.receivers| >= 1 && s.receivers[0].ReadingFallback?
    requires Running(s) && s.front.pool == []
    ensures p(t) && Shape(c, t) && t.receivers == s.receivers && t.back == s.back
    ensures Running(t) && t.front.main == Waiting(c.receivers)
    ensures t.front.pool == [] && t.front.ring == s.front.ring && t.front.stopped == s.front.stopped
    ensures s.front.stopped ==> t.front.early == s.front.early
    decreases c.receivers - s.front.main.signalled
  {
    if s.front.main.signalled == c.receivers {
      t := s;
    } else {
      var s1 := SignalOnce(c, p, s);
      t := SignalOn(c, p, s1);
    }
  }

  /** Receiver 1 is about to send, and receiver 0 has emptied the pool. */
  lemma TwoReceive(c: Config, p: State -> bool, d: Bytes) returns (s: State)
    requires c.Wired() && Explores(c, p) && OnlyReachable(c, p) && p(Init(c)) && c.receivers >= 2
    requires |d| <= c.bufferSize && Acceptable(c, d)
    ensures p(s) && Shape(c, s) && Running(s) && !s.front.stopped && !s.front.early && s.front.pool == []
    ensures s.receivers[0].Fetching? && s.receivers[1].Sending?
  {
    s := Init(c);
    if c.buffers == 1 {
      s := ReceiveOne(c, p, s, 1, d);
    } else {
      s := SendOne(c, p, s, d);
      s := ReceiveOne(c, p, s, 1, d);
      s := EmptyPool(c, p, s, d);
    }
  }

  lemma PanicRun(c: Config)
    requires c.Wired() && c.receivers >= 2 && CanAccept(c)
    ensures MayPanic(c)
  {
    var d: Bytes :| |d| <= c.bufferSize && Acceptable(c, d);
    var p := CanReach(c);
    ReachableExplores(c);
    var s := TwoReceive(c, p, d);
    s := Do(c, p, s, ByReceiver(0, FetchNone));
    s := Do(c, p, s, ByControl(StopSocket));
    s := SignalOn(c, p, s);
    s := Do(c, p, s, ByControl(CloseRing));
    s := Do(c, p, s, ByReceiver(1, SendOnClosed));
    assert Reachable(c, s) && s.front.panicked && !s.front.early;
  }

  /**
   With every fatal read coming after the socket is closed, a wired daemon can send on the closed
   ring exactly when it has two or more receivers, and accepts anything at all.
   */
  lemma PanicsExactlyIf(c: Config)
    requires c.Wired()
    ensures MayPanic(c) <==> c.receivers >= 2 && CanAccept(c)
  {
    if c.receivers >= 2 && CanAccept(c) {
      PanicRun(c);
    }
    forall s | Reachable(c, s)
      ensures s.front.panicked && !s.front.early ==> c.receivers >= 2 && CanAccept(c)
    {
      NoHarm(c, s);
    }
  }

  // Reads may be fatal while the socket is open: then one receiver is enough.

  /** Some run panics. */
  ghost predicate CanPanic(c: Config) {
    exists s :: Reachable(c, s) && s.front.panicked
  }

  /** With the pool empty, the processor returns the buffer of the oldest queued segment. */
  lemma ReturnOne(c: Config, p: State -> bool, s: State) returns (t: State)
    requires c.Wired() && Explores(c, p) && p(s) && Shape(c, s) && !s.front.panicked
    requires s.front.pool == [] && s.front.ring != [] && s.back.processor.Selecting? && s.back.batch == []
    ensures p(t) && Shape(c, t) && t.receivers == s.receivers
    ensures t.front == s.front.(pool := t.front.pool, ring := t.front.ring) && t.front.pool != []
  {
    if c.BatchSize() > 1 {
      t := Do(c, p, s, ByProcessor(TakeSegment));
      t := Do(c, p, t, ByProcessor(PoolIsEmpty));
    } else {
      t := Do(c, p, s, ByProcessor(TakeLastSegment));
    }
    t := Do(c, p, t, ByProcessor(Copy));
    t := Do(c, p, t, ByProcessor(Release));
  }

  /** Receiver 0 alone empties the pool and makes main close the ring. */
  lemma LoneClose(c: Config, p: State -> bool, d: Bytes) returns (s: State)
    requires c.Wired() && Explores(c, p) && OnlyReachable(c, p) && p(Init(c)) && c.receivers >= 1
    requires |d| <= c.bufferSize && Acceptable(c, d)
    ensures p(s) && Shape(c, s) && !s.front.panicked && !s.front.stopped && s.front.ringClosed
    ensures s.front.pool == [] && s.front.ring != [] && s.receivers[0].ReadingFallback?
    ensures s.back.processor.Selecting? && s.back.batch == []
  {
    s := EmptyPool(c, p, Init(c), d);
    s := Do(c, p, s, ByReceiver(0, FetchNone));
    s := SignalOn(c, p, s);
    s := Do(c, p, s, ByControl(CloseRing));
  }

  /**
   Receiver 0 alone: its sends empty the pool, fatal reads on the fallback buffer make main close the
   ring, the processor returns a buffer, and the receiver reads, accepts and sends.
   */
  lemma LonePanicRun(c: Config)
    requires c.Wired() && c.receivers >= 1 && CanAccept(c)
    ensures CanPanic(c)
  {
    var d: Bytes :| |d| <= c.bufferSize && Acceptable(c, d);
    var p := CanReach(c);
    ReachableExplores(c);
    var s := LoneClose(c, p, d);
    s := ReturnOne(c, p, s);
    s := Do(c, p, s, ByReceiver(0, OverflowNothing));
    s := ReceiveOne(c, p, s, 0, d);
    s := Do(c, p, s, ByReceiver(0, SendOnClosed));
    assert Reachable(c, s) && s.front.panicked;
  }

  /** Over all runs, a wired daemon can send on the closed ring exactly when it has a receiver and accepts anything. */
  lemma CanPanicExactlyIf(c: Config)
    requires c.Wired()
    ensures CanPanic(c) <==> c.receivers >= 1 && CanAccept(c)
  {
    if c.receivers >= 1 && CanAccept(c) {
      LonePanicRun(c);
    }
    forall s | Reachable(c, s)
      ensures s.front.panicked ==> c.receivers >= 1 && CanAccept(c)
    {
      NoHarm(c, s);
    }
  }
}
