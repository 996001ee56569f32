/**
 How long a segment stays batched: the processor's loop with a clock. A turn of the loop takes some
 time, up to a given bound; when a segment and the timer are both ready, either may be taken.
 */
module Latency {
  import opened Common

  datatype Config = Config(batchSize: nat, sendIdleTimeout: real, turn: real)
  {
    ghost predicate Valid() {
      batchSize >= 1 && sendIdleTimeout >= 0.0 && turn >= 0.0
    }
  }

  /** A batched segment is its arrival time; sent pairs arrival times with the times of sending, in order. */
  datatype State = State(now: real, idleTimer: real, batch: seq<real>, sent: seq<(real, real)>, done: bool)

  /** took is how long the turn takes. The processor waits only while the timer is not due. */
  datatype Step =
    | Wait(d: real)
    | Receive(poolEmpty: bool, took: real)
    | TimerFires(took: real)
    | CloseSeen(took: real)

  ghost predicate Enabled(c: Config, s: State, step: Step) {
    && !s.done
    && match step
       case Wait(d) => d >= 0.0 && s.now + d <= s.idleTimer
       case Receive(_, took) => 0.0 <= took <= c.turn
       case TimerFires(took) => s.now >= s.idleTimer && 0.0 <= took <= c.turn
       case CloseSeen(took) => 0.0 <= took <= c.turn
  }

  ghost function Stamped(batch: seq<real>, now: real): (r: seq<(real, real)>)
    ensures |r| == |batch| && forall k :: 0 <= k < |r| ==> r[k] == (batch[k], now)
  {
    seq(|batch|, k requires 0 <= k < |batch| => (batch[k], now))
  }

  ghost function Send(c: Config, s: State): State {
    s.(sent := s.sent + Stamped(s.batch, s.now), batch := [], idleTimer := s.now + c.sendIdleTimeout)
  }

  /** A segment that arrives now and is handled a little later. */
  ghost function Joined(s: State, took: real): State {
    s.(batch := s.batch + [s.now], now := s.now + took)
  }

  ghost function Apply(c: Config, s: State, step: Step): State
    requires Enabled(c, s, step)
  {
    match step
    case Wait(d) => s.(now := s.now + d)
    case Receive(poolEmpty, took) =>
      var t := Joined(s, took);
      if |t.batch| >= c.batchSize || poolEmpty then Send(c, t) else t
    case TimerFires(took) =>
      var t := s.(now := s.now + took);
      if s.batch != [] then Send(c, t) else t.(idleTimer := t.now + c.sendIdleTimeout)
    case CloseSeen(took) =>
      var t := s.(now := s.now + took);
      (if s.batch != [] then Send(c, t) else t).(done := true)
  }

  /** The state a run from s ends in, or None when some step of it was not enabled. */
  ghost function After(c: Config, s: State, run: seq<Step>): Option<State> {
    if run == [] then Some(s)
    else
      var t, last := After(c, s, run[..|run| - 1]), run[|run| - 1];
      if t.Some? && Enabled(c, t.value, last) then Some(Apply(c, t.value, last)) else None
  }

  ghost function Init(c: Config): State {
    State(0.0, c.sendIdleTimeout, [], [], false)
  }

  ghost predicate Reachable(c: Config, s: State) {
    exists run :: After(c, Init(c), run) == Some(s)
  }

  ghost function Larger(x: real, y: real): real {
    if x < y then y else x
  }

  /** How long n turns may take. */
  ghost function Turns(c: Config, n: nat): (r: real)
    requires c.Valid()
    ensures r >= 0.0
  {
    if n == 0 then 0.0 else Turns(c, n - 1) + c.turn
  }

  lemma {:induction false} TurnsGrow(c: Config, m: nat, n: nat)
    requires c.Valid() && m <= n
    ensures Turns(c, m) <= Turns(c, n)
  {
    if m < n {
      TurnsGrow(c, m, n - 1);
    }
  }

  /**
   The longest delay: the turn itself when every segment is a batch; otherwise the timeout, or the
   first turn if that is longer, and a turn for each further segment of a full batch.
   */
  ghost function Longest(c: Config): real
    requires c.Valid()
  {
    if c.batchSize == 1 then c.turn else Larger(c.sendIdleTimeout, c.turn) + Turns(c, c.batchSize - 1)
  }

  /** Nothing batched arrived before the timer was armed, and since each arrival not too many turns have gone by. */
  ghost predicate Timely(c: Config, s: State)
    requires c.Valid()
  {
    && |s.batch| < c.batchSize && s.idleTimer <= s.now + c.sendIdleTimeout && (s.batch == [] && !s.done ==> s.now <= s.idleTimer)
    && (forall k :: 0 <= k < |s.batch| ==> Overdue(c, s, k))
    && (forall p <- s.sent :: p.0 <= p.1 <= p.0 + Longest(c))
  }

  /** What is known of batched segment k. */
  ghost predicate Overdue(c: Config, s: State, k: nat)
    requires c.Valid() && k < |s.batch|
  {
    && s.idleTimer - c.sendIdleTimeout <= s.batch[k] <= s.now
    && s.now <= Larger(s.idleTimer, s.batch[k] + c.turn) + Turns(c, |s.batch| - 1 - k)
  }

  /** A batch is sent at a time that is not too late for any of its segments. */
  lemma SendIsTimely(c: Config, s: State)
    requires c.Valid()
    requires forall k :: 0 <= k < |s.batch| ==> s.batch[k] <= s.now <= s.batch[k] + Longest(c)
    requires forall p <- s.sent :: p.0 <= p.1 <= p.0 + Longest(c)
    ensures Timely(c, Send(c, s))
  {
    var t := Send(c, s);
    forall p <- t.sent
      ensures p.0 <= p.1 <= p.0 + Longest(c)
    {
      if p !in s.sent {
        assert p in Stamped(s.batch, s.now);
        var k :| 0 <= k < |s.batch| && Stamped(s.batch, s.now)[k] == p;
      }
    }
  }

  /** One more turn keeps the delay of batched segment k within bounds. */
  lemma OneMoreTurn(c: Config, s: State, k: nat, took: real)
    requires c.Valid() && Timely(c, s) && k < |s.batch| && 0.0 <= took <= c.turn
    ensures s.now + took <= Larger(s.idleTimer, s.batch[k] + c.turn) + Turns(c, |s.batch| - k)
    ensures s.now + took <= s.batch[k] + Longest(c)
  {
    assert Overdue(c, s, k);
    TurnsGrow(c, |s.batch| - k, c.batchSize - 1);
  }

  lemma LongestIsATurn(c: Config)
    requires c.Valid()
    ensures c.turn <= Longest(c)
  {
  }

  lemma ReceivingIsTimely(c: Config, s: State, poolEmpty: bool, took: real)
    requires c.Valid() && Timely(c, s) && Enabled(c, s, Receive(poolEmpty, took))
    ensures Timely(c, Apply(c, s, Receive(poolEmpty, took)))
  {
    var t := Joined(s, took);
    LongestIsATurn(c);
    forall k | 0 <= k < |s.batch|
      ensures t.now <= Larger(t.idleTimer, t.batch[k] + c.turn) + Turns(c, |t.batch| - 1 - k)
      ensures t.now <= t.batch[k] + Longest(c) && s.idleTimer - c.sendIdleTimeout <= t.batch[k] <= t.now
    {
      assert Overdue(c, s, k);
      OneMoreTurn(c, s, k, took);
    }
    if |t.batch| >= c.batchSize || poolEmpty {
      SendIsTimely(c, t);
    } else {
      forall k | 0 <= k < |t.batch|
        ensures Overdue(c, t, k)
      {
      }
    }
  }

  lemma StepKeepsTimely(c: Config, s: State, step: Step)
    requires c.Valid() && Timely(c, s) && Enabled(c, s, step)
    ensures Timely(c, Apply(c, s, step))
  {
    match step
    case Wait(d) =>
      forall k | 0 <= k < |s.batch|
        ensures Overdue(c, Apply(c, s, step), k)
      {
        assert Overdue(c, s, k);
      }
    case Receive(poolEmpty, took) => ReceivingIsTimely(c, s, poolEmpty, took);
    case TimerFires(took) => LaterIsTimely(c, s, took);
    case CloseSeen(took) => LaterIsTimely(c, s, took);
  }

  lemma LaterIsTimely(c: Config, s: State, took: real)
    requires c.Valid() && Timely(c, s) && 0.0 <= took <= c.turn
    ensures s.batch != [] ==> Timely(c, Send(c, s.(now := s.now + took)))
  {
    forall k | 0 <= k < |s.batch|
      ensures s.batch[k] <= s.now + took <= s.batch[k] + Longest(c)
    {
      assert Overdue(c, s, k);
      OneMoreTurn(c, s, k, took);
    }
    if s.batch != [] {
      SendIsTimely(c, s.(now := s.now + took));
    }
  }

  lemma {:induction false} RunsStayTimely(c: Config, s: State, run: seq<Step>)
    requires c.Valid() && Timely(c, s) && After(c, s, run).Some?
    ensures Timely(c, After(c, s, run).value)
  {
    if run != [] {
      var shorter := run[..|run| - 1];
      RunsStayTimely(c, s, shorter);
      StepKeepsTimely(c, After(c, s, shorter).value, run[|run| - 1]);
    }
  }

  /** No segment stays batched longer than the longest delay, and none is sent later than that. */
  lemma NothingStaysBatched(c: Config, s: State)
    requires c.Valid() && Reachable(c, s)
    ensures forall arrival <- s.batch :: arrival <= s.now <= arrival + Longest(c)
    ensures forall p <- s.sent :: p.0 <= p.1 <= p.0 + Longest(c)
    ensures |s.batch| < c.batchSize
  {
    var run :| After(c, Init(c), run) == Some(s);
    RunsStayTimely(c, Init(c), run);
    forall k | 0 <= k < |s.batch|
      ensures s.batch[k] <= s.now <= s.batch[k] + Longest(c)
    {
      assert Overdue(c, s, k);
      OneMoreTurn(c, s, k, 0.0);
    }
  }

  ghost predicate SentAfter(s: State, arrival: real, delay: real) {
    (arrival, arrival + delay) in s.sent
  }

  ghost predicate Possible(c: Config, delay: real) {
    exists s, arrival :: Reachable(c, s) && SentAfter(s, arrival, delay)
  }

  lemma Do(c: Config, s: State, step: Step) returns (t: State)
    requires Reachable(c, s) && Enabled(c, s, step)
    ensures Reachable(c, t) && t == Apply(c, s, step)
  {
    var run :| After(c, Init(c), run) == Some(s);
    t := Apply(c, s, step);
    assert (run + [step])[..|run|] == run;
    assert After(c, Init(c), run + [step]) == Some(t);
  }

  /** Segments that fill the batch one after the other delay its first one by any time their turns can take. */
  lemma {:induction false} FillBatch(c: Config, s: State, rest: real) returns (t: State)
    requires c.Valid() && Reachable(c, s) && !s.done && 1 <= |s.batch| < c.batchSize
    requires 0.0 <= rest <= Turns(c, c.batchSize - |s.batch|)
    ensures Reachable(c, t) && (s.batch[0], s.now + rest) in t.sent
    decreases c.batchSize - |s.batch|
  {
    var took := if rest < c.turn then rest else c.turn;
    var u := Do(c, s, Receive(false, took));
    if |s.batch| + 1 == c.batchSize {
      assert Turns(c, 1) == Turns(c, 0) + c.turn;
      t := u;
      assert t.sent[|s.sent|] == (s.batch[0], s.now + rest);
    } else {
      t := FillBatch(c, u, rest - took);
    }
  }

  lemma DelayRun(c: Config, delay: real)
    requires c.Valid() && 0.0 <= delay <= Longest(c)
    ensures Possible(c, delay)
  {
    var s := Init(c);
    assert After(c, s, []) == Some(s);
    if c.batchSize == 1 {
      s := Do(c, s, Receive(false, delay));
      assert s.sent[0] == (0.0, 0.0 + delay);
    } else {
      var first := if delay < Larger(c.sendIdleTimeout, c.turn) then delay else Larger(c.sendIdleTimeout, c.turn);
      if c.sendIdleTimeout < c.turn {
        s := Do(c, s, Receive(false, first));
      } else {
        s := Do(c, s, Receive(false, 0.0));
        s := Do(c, s, Wait(first));
      }
      s := FillBatch(c, s, delay - first);
    }
    assert SentAfter(s, 0.0, delay);
  }

  /** The delays that batching can cause are exactly those up to the longest. */
  lemma PossibleDelays(c: Config, delay: real)
    requires c.Valid()
    ensures Possible(c, delay) <==> 0.0 <= delay <= Longest(c)
  {
    if 0.0 <= delay <= Longest(c) {
      DelayRun(c, delay);
    }
    if Possible(c, delay) {
      var s, arrival :| Reachable(c, s) && SentAfter(s, arrival, delay);
      NothingStaysBatched(c, s);
    }
  }

  lemma {:induction false} NoTime(c: Config, n: nat)
    requires c.Valid() && c.turn == 0.0
    ensures Turns(c, n) == 0.0
  {
    if n > 0 {
      NoTime(c, n - 1);
    }
  }

  /** If turns take no time, the longest delay is the timeout, or none when every segment is a batch. */
  lemma QuickTurns(c: Config)
    requires c.Valid() && c.turn == 0.0
    ensures Longest(c) == if c.batchSize == 1 then 0.0 else c.sendIdleTimeout
  {
    NoTime(c, c.batchSize - 1);
  }
}
