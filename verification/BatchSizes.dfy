/** How large the batches get that the processor queues: every size up to the smaller of batch limit and buffer count. */
module BatchSizes {
  import opened Accounting
  import opened ClosePanic
  import opened Common
  import opened Flow
  import opened Invariant
  import opened Pipeline
  import Turns

  /** A batch of n documents is queued. */
  ghost predicate Queues(s: State, n: nat) {
    exists k :: 0 <= k < |s.back.queue| && |s.back.queue[k]| == n
  }

  ghost predicate CanQueue(c: Config, n: nat) {
    exists s :: Reachable(c, s) && Queues(s, n)
  }

  // Nothing else is queued

  ghost predicate OnlyAcceptableCounted(c: Config, s: State) {
    s.front.counted > 0 ==> c.receivers >= 1 && CanAccept(c)
  }

  lemma CountedOfMove(c: Config, f: Front, r: Receiver, step: ReceiverStep)
    requires FrontShape(c, f) && ReceiverShape(c, r) && ReceiverEnabled(c, f, r, step)
    requires f.counted > 0 ==> CanAccept(c)
    ensures ReceiverMove(c, f, r, step).front.counted > 0 ==> CanAccept(c)
  {
    if step.Accept? {
      var text := f.mem[r.b][..r.n];
      assert |text| <= c.bufferSize && Acceptable(c, text);
    }
  }

  lemma StepCountsAcceptable(c: Config, s: State, a: Action)
    requires Shape(c, s) && Enabled(c, s, a) && OnlyAcceptableCounted(c, s)
    ensures OnlyAcceptableCounted(c, Apply(c, s, a))
  {
    if a.ByReceiver? {
      CountedOfMove(c, s.front, s.receivers[a.i], a.receiverStep);
    } else {
      OthersKeepFront(c, s, a);
    }
  }

  lemma {:induction false} CountedNeedsAcceptance(c: Config, run: seq<Action>)
    requires After(c, Init(c), run).Some?
    ensures OnlyAcceptableCounted(c, After(c, Init(c), run).value)
  {
    if run != [] {
      var shorter, t, a := LastStep(c, Init(c), run);
      CountedNeedsAcceptance(c, shorter);
      StepCountsAcceptable(c, t, a);
    }
  }

  lemma {:induction false} OneOfMany<T>(xss: seq<seq<T>>, k: nat)
    requires k < |xss|
    ensures |xss[k]| <= |Flatten(xss)|
  {
    if k > 0 {
      OneOfMany(xss[1..], k - 1);
    }
  }

  lemma QueuedSizes(c: Config, s: State, n: nat)
    requires c.Wired() && Reachable(c, s) && Queues(s, n)
    ensures 1 <= n <= c.batchLimit && n <= c.buffers && c.receivers >= 1 && CanAccept(c)
  {
    ReachableIsGood(c, s);
    var k :| 0 <= k < |s.back.queue| && |s.back.queue[k]| == n;
    assert Submittable(c, s.back.queue[k]);
    OneOfMany(s.back.queue, k);
    var run :| After(c, Init(c), run) == Some(s);
    CountedNeedsAcceptance(c, run);
  }

  // All of these are queued

  /** k segments are batched; all else is as at the start. */
  ghost predicate HasBatched(c: Config, s: State, k: nat) {
    && Shape(c, s) && Running(s) && !s.front.stopped && s.front.ring == [] && |s.front.pool| + k == c.buffers
    && |s.receivers| >= 1 && s.receivers[0].Fetching?
    && s.back.processor.Selecting? && |s.back.batch| == k && s.back.queue == [] && !s.back.queueClosed
  }

  lemma BatchOne(c: Config, p: State -> bool, s: State, k: nat, d: Bytes) returns (t: State)
    requires c.Wired() && Explores(c, p) && OnlyReachable(c, p) && p(s) && HasBatched(c, s, k)
    requires |d| <= c.bufferSize && Acceptable(c, d) && k + 1 < c.BatchSize()
    ensures p(t) && HasBatched(c, t, k + 1)
  {
    t := SendOne(c, p, s, d);
    t := Do(c, p, t, ByProcessor(TakeSegment));
    t := Do(c, p, t, ByProcessor(PoolHasBuffers));
  }

  lemma {:induction false} BatchMany(c: Config, p: State -> bool, k: nat, d: Bytes) returns (s: State)
    requires c.Wired() && Explores(c, p) && OnlyReachable(c, p) && p(Init(c)) && c.receivers >= 1
    requires |d| <= c.bufferSize && Acceptable(c, d) && k < c.BatchSize()
    ensures p(s) && HasBatched(c, s, k)
  {
    if k == 0 {
      s := Init(c);
    } else {
      s := BatchMany(c, p, k - 1, d);
      s := BatchOne(c, p, s, k - 1, d);
    }
  }

  /** The processor is about to send a batch of n segments. */
  lemma FillTo(c: Config, p: State -> bool, n: nat, d: Bytes) returns (s: State)
    requires c.Wired() && Explores(c, p) && OnlyReachable(c, p) && p(Init(c)) && c.receivers >= 1
    requires |d| <= c.bufferSize && Acceptable(c, d) && 1 <= n <= c.BatchSize()
    ensures p(s) && Turns.AboutToCopy(c, s) && |s.back.batch| == n && s.back.queue == []
  {
    if n < c.BatchSize() {
      s := BatchMany(c, p, n, d);
      s := Do(c, p, s, ByProcessor(IdleFlush));
    } else {
      s := BatchMany(c, p, n - 1, d);
      s := SendOne(c, p, s, d);
      s := Do(c, p, s, ByProcessor(TakeLastSegment));
    }
  }

  lemma {:induction false} DocumentEach(c: Config, mem: seq<Bytes>, segs: seq<Segment>)
    requires MemoryShape(c, mem) && SegmentsShape(c, segs)
    ensures |Documents(c, mem, segs)| == |segs|
  {
    if segs != [] {
      DocumentEach(c, mem, segs[1..]);
    }
  }

  lemma QueueExactly(c: Config, n: nat)
    requires c.Wired() && c.receivers >= 1 && CanAccept(c) && 1 <= n <= c.BatchSize()
    ensures CanQueue(c, n)
  {
    var d: Bytes :| |d| <= c.bufferSize && Acceptable(c, d);
    var p := CanReach(c);
    ReachableExplores(c);
    var s := FillTo(c, p, n, d);
    var t := Turns.SubmitTurn(c, p, s);
    DocumentEach(c, s.front.mem, s.back.batch);
    assert |Turns.SelectView(t).queue[0]| == n;
    assert Queues(t, n);
    assert Reachable(c, t);
  }

  /**
   A wired daemon that has a receiver and accepts anything can queue a batch of n documents exactly for
   the n from 1 to the batch limit or the number of buffers, whichever is smaller.
   */
  lemma QueuesExactly(c: Config, n: nat)
    requires c.Wired()
    ensures CanQueue(c, n) <==> c.receivers >= 1 && CanAccept(c) && 1 <= n <= c.batchLimit && n <= c.buffers
  {
    if c.receivers >= 1 && CanAccept(c) && 1 <= n <= c.batchLimit && n <= c.buffers {
      QueueExactly(c, n);
    }
    forall s | Reachable(c, s) && Queues(s, n)
      ensures c.receivers >= 1 && CanAccept(c) && 1 <= n <= c.batchLimit && n <= c.buffers
    {
      QueuedSizes(c, s, n);
    }
  }
}
