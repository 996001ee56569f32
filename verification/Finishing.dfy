/** A shutdown can always be completed, and in an orderly way exactly when there are enough buffers. */
module Finishing {
  import opened Common
  import opened Pipeline
  import opened Invariant
  import opened Termination
  import opened Guarantees

  ghost predicate AllRetired(rs: seq<Receiver>) {
    forall i :: 0 <= i < |rs| ==> rs[i].Retired?
  }

  /** A receiver that has retired does nothing. */
  lemma RetiredAreStill(c: Config, s: State, a: Action)
    requires Shape(c, s) && Enabled(c, s, a) && AllRetired(s.receivers)
    ensures AllRetired(Apply(c, s, a).receivers) && Apply(c, s, a).front.fatalFallbacks == s.front.fatalFallbacks
  {
  }

  /** From every state after the socket is closed some run finishes or panics. */
  lemma {:induction false} RunToRest(c: Config, p: State -> bool, s: State) returns (t: State)
    requires c.Wired() && Explores(c, p) && OnlyReachable(c, p) && p(s) && Shape(c, s) && s.front.stopped
    ensures p(t) && Shape(c, t) && (t.front.main.Finished? || t.front.panicked)
    ensures AllRetired(s.receivers) ==> t.front.fatalFallbacks == s.front.fatalFallbacks
    decreases Measure(c, s)
  {
    ReachableIsGood(c, s);
    MeasureIsNatural(c, s);
    if s.front.main.Finished? || s.front.panicked {
      t := s;
    } else {
      var a := NeverStuck(c, s);
      StepShrinks(c, s, a);
      var u := Do(c, p, s, a);
      if AllRetired(s.receivers) {
        RetiredAreStill(c, s, a);
      }
      t := RunToRest(c, p, u);
    }
  }

  /** Some run from s ends in t. */
  ghost predicate Follows(c: Config, s: State, t: State)
    requires Shape(c, s)
  {
    exists run :: After(c, s, run) == Some(t)
  }

  lemma FollowsStep(c: Config, s: State, t: State, a: Action)
    requires Shape(c, s) && Follows(c, s, t) && Shape(c, t) && Enabled(c, t, a)
    ensures Follows(c, s, Apply(c, t, a))
  {
    var run :| After(c, s, run) == Some(t);
    OneMore(c, s, run, t, a);
  }

  /** Whatever has happened before, a daemon whose socket is closed can go on until it has finished or panicked. */
  lemma ShutdownCanComplete(c: Config, s: State)
    requires c.Wired() && Reachable(c, s) && Shape(c, s) && s.front.stopped
    ensures exists t :: Follows(c, s, t) && (t.front.main.Finished? || t.front.panicked)
  {
    var p: State -> bool := t => Reachable(c, t) && Follows(c, s, t);
    forall t, a | Reachable(c, t) && Follows(c, s, t) && Shape(c, t) && Enabled(c, t, a)
      ensures Reachable(c, Apply(c, t, a)) && Follows(c, s, Apply(c, t, a))
    {
      ReachableStep(c, t, a);
      FollowsStep(c, s, t, a);
    }
    assert After(c, s, []) == Some(s);
    var t := RunToRest(c, p, s);
    assert Follows(c, s, t);
  }

  /** The shutdown is over, and every fatal read was on a pool buffer. */
  ghost predicate FinishedOrderly(s: State) {
    s.front.main.Finished? && s.front.fatalFallbacks == 0
  }

  /** The first k receivers have retired, and the others have done nothing. */
  ghost predicate Retiring(c: Config, s: State, k: nat) {
    && Shape(c, s) && s.front.stopped && !s.front.panicked && s.front.fatalFallbacks == 0
    && s.front.main == Waiting(k) && k <= c.receivers && |s.front.pool| + k == c.buffers
    && (forall i :: 0 <= i < k ==> s.receivers[i].Retired?)
    && (forall i :: k <= i < c.receivers ==> s.receivers[i].Fetching?)
  }

  lemma RetireNext(c: Config, p: State -> bool, s: State, k: nat) returns (t: State)
    requires Explores(c, p) && p(s) && Retiring(c, s, k) && k < c.receivers && k < c.buffers
    ensures p(t) && Retiring(c, t, k + 1)
  {
    t := Do(c, p, s, ByReceiver(k, FetchBuffer));
    t := Do(c, p, t, ByReceiver(k, ReadFatal));
    t := Do(c, p, t, ByReceiver(k, SignalAndRetire));
  }

  lemma {:induction false} RetireAll(c: Config, p: State -> bool, k: nat) returns (s: State)
    requires Explores(c, p) && p(Init(c)) && k <= c.receivers <= c.buffers
    ensures p(s) && Retiring(c, s, k)
  {
    if k == 0 {
      s := Do(c, p, Init(c), ByControl(StopSocket));
    } else {
      s := RetireAll(c, p, k - 1);
      s := RetireNext(c, p, s, k - 1);
    }
  }

  /** The receivers retire with different buffers. */
  lemma OrderlyNeedsBuffers(c: Config, s: State)
    requires c.Wired() && Reachable(c, s) && FinishedOrderly(s)
    ensures c.receivers <= c.buffers
  {
    ReachableIsGood(c, s);
    CloseIsSafe(c, s);
    DoneMeansDrained(c, s);
    RetiredHoldTheRest(c, s);
  }

  /** The shutdown can be orderly exactly when there is a buffer for every receiver. */
  lemma OrderlyFinishExactlyIf(c: Config)
    requires c.Wired()
    ensures (exists s :: Reachable(c, s) && FinishedOrderly(s)) <==> c.receivers <= c.buffers
  {
    if c.receivers <= c.buffers {
      var p := CanReach(c);
      ReachableExplores(c);
      var s := RetireAll(c, p, c.receivers);
      s := RunToRest(c, p, s);
      CloseIsSafe(c, s);
      assert Reachable(c, s) && FinishedOrderly(s);
    }
    if s :| Reachable(c, s) && FinishedOrderly(s) {
      OrderlyNeedsBuffers(c, s);
    }
  }
}
