/** What holds in every state the wired daemon can reach. */
module Guarantees {
  import opened Common
  import opened Util
  import opened Pipeline
  import opened Ownership
  import opened Flow
  import opened Shutdown
  import opened Accounting
  import opened Invariant
  import opened Termination

  /** A place where a buffer can be. */
  datatype Place =
    | InPool(k: nat)
    | WithReceiver(i: nat)
    | OnRing(k: nat)
    | InBatch(k: nat)

  ghost predicate At(s: State, b: nat, p: Place) {
    match p
    case InPool(k) => k < |s.front.pool| && s.front.pool[k] == b
    case WithReceiver(i) => i < |s.receivers| && Holds(s.receivers[i], b) > 0
    case OnRing(k) => k < |s.front.ring| && s.front.ring[k].buf == b
    case InBatch(k) => k < |Held(s.back)| && Held(s.back)[k].buf == b
  }

  /** How much a place contributes to the count of b. */
  lemma PlaceCounts(s: State, b: nat, p: Place)
    requires At(s, b, p)
    ensures match p
      case InPool(_) => Sum(Listed(b), s.front.pool) >= 1
      case WithReceiver(_) => Sum(Holding(b), s.receivers) >= 1
      case OnRing(_) => Sum(Using(b), s.front.ring) >= 1
      case InBatch(_) => Sum(Using(b), Held(s.back)) >= 1
  {
    match p
    case InPool(k) => SumUpdate(Listed(b), s.front.pool, k, s.front.pool[k]);
    case WithReceiver(i) => SumUpdate(Holding(b), s.receivers, i, s.receivers[i]);
    case OnRing(k) => SumUpdate(Using(b), s.front.ring, k, s.front.ring[k]);
    case InBatch(k) => SumUpdate(Using(b), Held(s.back), k, Held(s.back)[k]);
  }

  lemma TwoPlacesCountTwice(s: State, b: nat, p: Place, q: Place)
    requires At(s, b, p) && At(s, b, q) && p != q
    ensures Places(s, b) >= 2
  {
    PlaceCounts(s, b, p);
    PlaceCounts(s, b, q);
    match (p, q)
    case (InPool(j), InPool(k)) => SumTwice(Listed(b), s.front.pool, Min(j, k), Max(j, k));
    case (WithReceiver(j), WithReceiver(k)) => SumTwice(Holding(b), s.receivers, Min(j, k), Max(j, k));
    case (OnRing(j), OnRing(k)) => SumTwice(Using(b), s.front.ring, Min(j, k), Max(j, k));
    case (InBatch(j), InBatch(k)) => SumTwice(Using(b), Held(s.back), Min(j, k), Max(j, k));
    case _ =>
  }

  lemma SomePlace(s: State, b: nat) returns (p: Place)
    requires Places(s, b) >= 1
    ensures At(s, b, p)
  {
    SumOfZeros(Listed(b), s.front.pool);
    SumOfZeros(Holding(b), s.receivers);
    SumOfZeros(Using(b), s.front.ring);
    SumOfZeros(Using(b), Held(s.back));
    if k: nat :| k < |s.front.pool| && Listed(b)(s.front.pool[k]) != 0 {
      p := InPool(k);
    } else if i: nat :| i < |s.receivers| && Holding(b)(s.receivers[i]) != 0 {
      p := WithReceiver(i);
    } else if k: nat :| k < |s.front.ring| && Using(b)(s.front.ring[k]) != 0 {
      p := OnRing(k);
    } else {
      var k: nat :| k < |Held(s.back)| && Using(b)(Held(s.back)[k]) != 0;
      p := InBatch(k);
    }
  }

  /** Each of the initial buffers is in exactly one place: pool, one receiver, ring or batch. */
  lemma EveryBufferInOnePlace(c: Config, s: State, b: nat)
    requires c.Wired() && Reachable(c, s) && b < c.buffers
    ensures exists p :: At(s, b, p)
    ensures forall p, q :: At(s, b, p) && At(s, b, q) ==> p == q
  {
    ReachableIsGood(c, s);
    assert Places(s, b) == 1;
    var here := SomePlace(s, b);
    forall p, q | At(s, b, p) && At(s, b, q)
      ensures p == q
    {
      if p != q {
        TwoPlacesCountTwice(s, b, p, q);
      }
    }
  }

  /** No buffer handed back is rejected, as a duplicate or for want of room. */
  lemma EveryReturnAccepted(c: Config, s: State)
    requires c.Wired() && Reachable(c, s)
    ensures forall i :: 0 <= i < |s.receivers| ==> ReturnsAccepted(c, s.front, s.receivers[i])
    ensures Shape(c, s) && (s.back.processor.Releasing? ==> Accepted(c, s.front, s.back.batch[s.back.processor.k].buf))
  {
    ReachableIsGood(c, s);
    forall i: nat | i < |s.receivers|
      ensures ReturnsAccepted(c, s.front, s.receivers[i])
    {
      ReceiverReturnsAccepted(c, s, i);
    }
    if s.back.processor.Releasing? {
      ProcessorReturnAccepted(c, s);
    }
  }

  /** A receiver about to send finds room on the ring; nothing is ever truncated. */
  lemma RingNeverTruncates(c: Config, s: State)
    requires c.Wired() && Reachable(c, s)
    ensures s.front.truncated == 0
    ensures forall i :: 0 <= i < |s.receivers| && s.receivers[i].Sending? ==> |s.front.ring| < c.RingCapacity()
    ensures forall i :: 0 <= i < |s.receivers| ==> !s.receivers[i].Evicting? && !s.receivers[i].Recycling?
  {
    ReachableIsGood(c, s);
    forall i: nat | i < |s.receivers| && s.receivers[i].Sending?
      ensures |s.front.ring| < c.RingCapacity()
    {
      RingHasRoom(c, s, i);
    }
  }

  /**
   The bodies of the datagrams put on the ring, in order, are the documents dequeued, queued, in the
   processor's hand, still in batched buffers and still in queued buffers: each once, unaltered.
   */
  lemma DocumentsAreBodiesInOrder(c: Config, s: State)
    requires c.Wired() && Reachable(c, s)
    ensures Shape(c, s) && SegmentsShape(c, Uncopied(s.back))
    ensures s.front.pushed
         == Flatten(s.back.out) + Flatten(s.back.queue) + InHand(s.back)
            + Documents(c, s.front.mem, Uncopied(s.back)) + Documents(c, s.front.mem, s.front.ring)
    ensures forall i :: 0 <= i < |s.receivers| && s.receivers[i].Sending? ==>
      var r := s.receivers[i]; Document(c, s.front.mem, r.seg) == Body(r.datagram, NEWLINE)
  {
    ReachableIsGood(c, s);
    UncopiedInShape(c, s.back);
    forall i: nat | i < |s.receivers| && s.receivers[i].Sending?
      ensures var r := s.receivers[i]; Document(c, s.front.mem, r.seg) == Body(r.datagram, NEWLINE)
    {
      assert Faithful(c, s.front.mem, s.receivers[i]);
    }
  }

  /**
   Every datagram and every fatal read on a fallback buffer is booked once: rejected by the daemon,
   dropped by a receiver, truncated, shed from the queue, sent, failed, or in flight.
   */
  lemma LedgerBalances(c: Config, s: State)
    requires c.Wired() && Reachable(c, s)
    ensures s.front.received + s.front.fatalFallbacks
         == s.front.rejected + s.front.overflowed + s.front.truncated
            + s.back.shed + s.back.sent + s.back.failed + InFlight(s)
  {
    ReachableIsGood(c, s);
  }

  /** The batch fits, a second try-send succeeds, and the queue is open while the processor sends. */
  lemma SendTakesAtMostTwoTries(c: Config, s: State)
    requires c.Wired() && Reachable(c, s)
    ensures match s.back.processor
      case Offering(docs, tries, _) =>
        && !s.back.queueClosed && 1 <= |docs| <= c.BatchSize()
        && 1 <= tries <= 2 && (tries == 2 ==> |s.back.queue| < c.queueCapacity)
      case Shedding(docs, tries, _) => tries == 1
      case Selecting => |s.back.batch| < c.BatchSize()
      case _ => true
  {
    ReachableIsGood(c, s);
  }

  /** Every receiver has signalled once when it has retired, and not before, unless a fatal read hit a fallback buffer. */
  lemma SignalsMeanRetirement(c: Config, s: State)
    requires c.Wired() && Reachable(c, s)
    ensures |s.signals| == |s.receivers|
    ensures (forall i :: 0 <= i < |s.receivers| ==> s.signals[i] == Retirement(s.receivers[i]))
       <==> s.front.fatalFallbacks == 0
  {
    ReachableIsGood(c, s);
    EqualSums(s.receivers, s.signals);
  }

  /** Without such a read the ring closes after every receiver's last send, and nothing panics. */
  lemma CloseIsSafe(c: Config, s: State)
    requires c.Wired() && Reachable(c, s) && s.front.fatalFallbacks == 0
    ensures s.front.ringClosed ==> forall i :: 0 <= i < |s.receivers| ==> s.receivers[i].Retired?
    ensures !s.front.panicked
  {
    ReachableIsGood(c, s);
    if s.front.ringClosed {
      ClosedMeansAllRetired(c, s);
    }
  }

  /** When the processor has announced that it is done, nothing is left in it, before it or behind it. */
  lemma DoneMeansDrained(c: Config, s: State)
    requires c.Wired() && Reachable(c, s) && s.back.processor.ProcessorExited?
    ensures s.front.ringClosed && s.front.ring == [] && s.back.batch == [] && s.back.queueClosed
    ensures forall j :: 0 <= j < |s.back.pollers| ==> s.back.pollers[j].Gone?
    ensures c.pollers > 0 ==> s.back.queue == []
  {
    ReachableIsGood(c, s);
    SumOfOnes(Departure, s.back.pollers);
    if c.pollers > 0 {
      assert Departure(s.back.pollers[0]) == 1;
    }
  }

  /**
   From any state after the socket is closed: a run has at most Measure working steps plus one per
   telemetry round, and where no working step is left main has finished, or a send has panicked.
   */
  lemma ShutdownCompletes(c: Config, s: State, run: seq<Action>)
    requires c.Wired() && Reachable(c, s) && Shape(c, s) && s.front.stopped && After(c, s, run).Some?
    ensures Sum(Working, run) <= Measure(c, s) + Sum(TelemetryRound, run)
    ensures var t := After(c, s, run).value;
      (forall a :: Enabled(c, t, a) ==> Timer(a)) ==> t.front.main.Finished? || t.front.panicked
  {
    ReachableIsGood(c, s);
    ShutdownIsBounded(c, s, run);
    RunsStayGood(c, s, run);
    var t := After(c, s, run).value;
    MeasureIsNatural(c, t);
    if !t.front.main.Finished? && !t.front.panicked {
      var a := NeverStuck(c, t);
    }
  }

  /**
   A finished shutdown without a fatal read on a fallback buffer has handled every accepted
   segment, and every buffer but the one each receiver retired with is back in the pool.
   */
  lemma CleanFinish(c: Config, s: State)
    requires c.Wired() && c.pollers > 0 && Reachable(c, s)
    requires s.front.main.Finished? && s.front.fatalFallbacks == 0
    ensures !s.front.panicked
    ensures s.front.pushed == Flatten(s.back.out)
    ensures s.front.counted == s.back.processed == |s.front.pushed| == s.back.shed + s.back.sent + s.back.failed
    ensures s.front.received == s.front.counted + s.front.rejected + s.front.overflowed
    ensures |s.front.pool| + c.receivers == c.buffers
  {
    ReachableIsGood(c, s);
    CloseIsSafe(c, s);
    DoneMeansDrained(c, s);
    SumOfZeros(Unbooked, s.receivers);
    SumOfZeros(Unsent, s.receivers);
    SumOfZeros(PuttingSize, s.back.pollers);
    RetiredHoldTheRest(c, s);
  }

  /** Numbers below n that occur once each are n numbers. */
  lemma {:induction false} OnceEachIsLength(xs: seq<nat>, n: nat)
    requires forall k :: 0 <= k < |xs| ==> xs[k] < n
    requires forall b: nat | b < n :: Sum(Listed(b), xs) == 1
    ensures |xs| == n
  {
    if n == 0 {
      assert xs == [];
    } else {
      SumOfZeros(Listed(n - 1), xs);
      var k: nat :| k < |xs| && xs[k] == n - 1;
      var rest := xs[..k] + xs[k + 1..];
      assert xs == xs[..k] + [xs[k]] + xs[k + 1..];
      forall b: nat | b < n
        ensures Sum(Listed(b), rest) == if b == n - 1 then 0 else 1
      {
        SumConcat(Listed(b), xs[..k], xs[k + 1..]);
        SumAppend(Listed(b), xs[..k], xs[k]);
        SumConcat(Listed(b), xs[..k] + [xs[k]], xs[k + 1..]);
      }
      SumOfZeros(Listed(n - 1), rest);
      OnceEachIsLength(rest, n - 1);
    }
  }

  ghost function Kept(rs: seq<Receiver>): seq<nat>
    requires forall i :: 0 <= i < |rs| ==> rs[i].Retired?
  {
    if rs == [] then [] else [rs[0].b] + Kept(rs[1..])
  }

  lemma {:induction false} KeptCounts(c: Config, rs: seq<Receiver>, b: nat)
    requires forall i :: 0 <= i < |rs| ==> rs[i].Retired? && ReceiverShape(c, rs[i])
    ensures |Kept(rs)| == |rs| && Sum(Listed(b), Kept(rs)) == Sum(Holding(b), rs)
    ensures forall k :: 0 <= k < |Kept(rs)| ==> Kept(rs)[k] < c.buffers
  {
    if rs != [] {
      KeptCounts(c, rs[1..], b);
      assert Kept(rs)[1..] == Kept(rs[1..]);
    }
  }

  /** With all receivers retired and ring and batch empty, pool and receivers share the buffers out. */
  lemma RetiredHoldTheRest(c: Config, s: State)
    requires Shape(c, s) && Owned(c, s) && s.front.ring == [] && Held(s.back) == []
    requires forall i :: 0 <= i < |s.receivers| ==> s.receivers[i].Retired?
    ensures |s.front.pool| + c.receivers == c.buffers
  {
    var kept := Kept(s.receivers);
    KeptCounts(c, s.receivers, 0);
    forall b: nat | b < c.buffers
      ensures Sum(Listed(b), s.front.pool + kept) == 1
    {
      assert Places(s, b) == 1;
      KeptCounts(c, s.receivers, b);
      SumConcat(Listed(b), s.front.pool, kept);
    }
    OnceEachIsLength(s.front.pool + kept, c.buffers);
  }
}
