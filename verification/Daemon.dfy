/** cmd/tracing/daemon.go: what initDaemon wires together, and the loop that receives datagrams. */
module Daemons {
  import opened Common
  import opened BufferPools
  import opened Laws
  import opened Outcomes
  import opened RingBuffers
  import opened Util
  import Pipeline

  /** The segment that holds the body of the text at the start of a buffer. */
  ghost function BodyOf(bufPointer: SlicePointer, text: Bytes): TraceSegment {
    var lo := bufPointer.slice.lo;
    TraceSegment(Slice(bufPointer.slice.store, lo + HeaderEnd(text, NEWLINE) + 1, lo + |text|), bufPointer)
  }

  class Daemon {
    const config: Pipeline.Config
    const std: RingBuffer
    const pool: BufferPool
    var count: nat
    // how often done has been signalled
    var signals: nat
    // telemetry counts
    var received: nat
    var rejected: nat
    var spillover: nat

    /** Pool and ring are sound and belong together, and every pooled buffer has the configured size. */
    ghost predicate Valid()
      reads this, pool, std
    {
      && std.pool == pool && std.Valid() && config.bufferSize > 0
      && (forall p <- pool.buffers :: Whole(p, config.bufferSize))
      && (forall ts <- std.c :: Whole(ts.poolBuf, config.bufferSize))
    }

    ghost function State(): PollState<Address, TraceSegment>
      reads this, std, std.pool
    {
      PollState(std.State(), received, count, rejected, spillover, signals)
    }

    /** The buffer that the next turn reads into: the one on top of the pool, or the fallback. */
    ghost function Target(fallBackBuffer: SlicePointer): SlicePointer
      reads pool
    {
      if pool.buffers == [] then fallBackBuffer else pool.buffers[|pool.buffers| - 1]
    }

    constructor (config: Pipeline.Config)
      requires config.Wired()
      ensures Valid() && this.config == config && fresh(pool) && fresh(std)
      ensures pool.capacity == |pool.buffers| == config.buffers && std.capacity == config.RingCapacity()
      ensures std.c == [] && !std.closed && count == 0 && signals == 0
      ensures received == 0 && rejected == 0 && spillover == 0
    {
      this.config := config;
      var bufferPool := new BufferPool(config.buffers, config.bufferSize);
      pool := bufferPool;
      std := new RingBuffer(config.buffers, bufferPool);
      count, signals, received, rejected, spillover := 0, 0, 0, 0, 0;
    }

    /** The number of bytes read, which is 0 after a passing error and -1 after a fatal one. */
    method Read(buf: SlicePointer, outcome: ReadOutcome, contents: Bytes) returns (rlen: int)
      requires Whole(buf, |contents|)
      requires outcome.Got? ==> outcome.n <= |contents|
      modifies this`signals, buf.slice.store
      ensures buf.slice.store[..] == contents
      ensures State() == if outcome.Fatal? then old(State()).(signals := old(signals) + 1) else old(State())
      ensures old(Valid()) ==> Valid()
      ensures rlen == if outcome.Got? then outcome.n else if outcome.Fatal? then -1 else 0
    {
      var store := buf.slice.store;
      forall k | 0 <= k < store.Length {
        store[k] := contents[k];
      }
      match outcome {
        case Got(n) => rlen := n;
        case Temporary => rlen := 0;
        case Fatal =>
          signals := signals + 1;
          rlen := -1;
      }
    }

    /** Splits the first rlen bytes of a buffer into header and payload. */
    method Split(buf: SlicePointer, rlen: nat, splitBuf: array<Slice>) returns (header: Slice, payload: Slice)
      requires buf.slice.Valid() && buf.slice.lo + rlen <= buf.slice.hi
      modifies splitBuf
      ensures State() == old(State()) && (old(Valid()) ==> Valid()) && buf.slice.store[..] == old(buf.slice.store[..])
      ensures var text := buf.slice.store[buf.slice.lo..buf.slice.lo + rlen];
        && header.Valid() && header.Text() == Header(text, NEWLINE) && header.store == buf.slice.store
        && payload.Valid() && payload.Text() == Body(text, NEWLINE)
        && (payload.lo < payload.hi ==> payload == BodyOf(buf, text).raw)
    {
      var bufMessage := Slice(buf.slice.store, buf.slice.lo, buf.slice.lo + rlen);
      header, payload := SplitAtByte(bufMessage, NEWLINE, splitBuf);
    }

    /** Takes a buffer from the pool, or the fallback when the pool has none. */
    method Take(fallBackBuffer: SlicePointer) returns (bufPointer: SlicePointer, fallbackPointerUsed: bool)
      requires Valid() && Whole(fallBackBuffer, config.bufferSize)
      modifies pool
      ensures Valid() && bufPointer == old(Target(fallBackBuffer)) && Whole(bufPointer, config.bufferSize)
      ensures fallbackPointerUsed <==> old(pool.buffers) == []
      ensures var s := old(State());
        if fallbackPointerUsed then State() == s
        else
          var last := |s.shared.pool| - 1;
          && State() == s.(shared := s.shared.(pool := s.shared.pool[..last])) && Head(bufPointer) == s.shared.pool[last]
    {
      fallbackPointerUsed := false;
      bufPointer := fallBackBuffer;
      ghost var heads := pool.Heads();
      var pooled := pool.Get();
      if pooled == null {
        fallbackPointerUsed := true;
      } else {
        bufPointer := pooled;
        assert pool.Heads() == heads[..|heads| - 1];
      }
    }

    method Reject(bufPointer: SlicePointer)
      requires Valid() && Whole(bufPointer, config.bufferSize)
      modifies this`rejected, pool
      ensures var s := old(State());
        && Valid() && std.closed == old(std.closed)
        && State() == s.(rejected := s.rejected + 1,
                         shared := s.shared.(pool := Returned(s.shared.pool, pool.capacity, Head(bufPointer))))
    {
      pool.Return(bufPointer);
      rejected := rejected + 1;
    }

    method Forward(payload: Slice, bufPointer: SlicePointer)
      requires Valid() && Whole(bufPointer, config.bufferSize) && !std.closed
      modifies this`count, pool, std
      ensures var s, x := old(State()), TraceSegment(payload, bufPointer);
        && Valid() && !std.closed
        && State() == s.(counted := s.counted + 1, shared := AfterSend(s.shared, pool.capacity, std.capacity, HeadOf(), x))
    {
      count := count + 1;
      std.Send(TraceSegment(payload, bufPointer));
    }

    /** The rest of a turn after a datagram of rlen bytes has been read into a pool buffer. */
    method Receive(bufPointer: SlicePointer, rlen: nat, splitBuf: array<Slice>)
      requires Valid() && Whole(bufPointer, config.bufferSize) && rlen <= config.bufferSize
      requires Acceptable(config.valid, bufPointer.slice.store[..rlen]) ==> !std.closed
      modifies this`count, this`rejected, pool, std, splitBuf
      ensures Valid() && std.closed == old(std.closed)
      ensures var text := bufPointer.slice.store[..rlen];
        State() == AfterDatagram(old(State()), Head(bufPointer), pool.capacity, std.capacity, HeadOf(), config.valid, text,
                                 BodyOf(bufPointer, text))
      ensures var good := WellFormed(config.valid, bufPointer.slice.store[..rlen]);
        && count == old(count) + One(good) && rejected == old(rejected) + One(!good)
        && received == old(received) && spillover == old(spillover) && signals == old(signals)
        && (if good then std.c != [] && std.c[|std.c| - 1] == BodyOf(bufPointer, bufPointer.slice.store[..rlen])
            else std.c == old(std.c))
    {
      var header, payload := Split(bufPointer, rlen, splitBuf);
      ghost var text := bufPointer.slice.store[..rlen];
      AcceptableExactlyIf(config.valid, text);
      if payload.lo == payload.hi || !config.valid(header.Text()) {
        assert !Acceptable(config.valid, text);
        Reject(bufPointer);
      } else {
        assert Acceptable(config.valid, text) && TraceSegment(payload, bufPointer) == BodyOf(bufPointer, text);
        Forward(payload, bufPointer);
      }
    }

    /** What follows a read into a pool buffer: only a fatal one retires the receiver. */
    method AfterReading(bufPointer: SlicePointer, outcome: ReadOutcome, rlen: int, splitBuf: array<Slice>, ghost contents: Bytes)
      returns (retired: bool)
      requires Valid() && Whole(bufPointer, config.bufferSize) && bufPointer.slice.store[..] == contents
      requires |contents| == config.bufferSize && (outcome.Got? ==> outcome.n <= config.bufferSize)
      requires rlen == if outcome.Got? then outcome.n else if outcome.Fatal? then -1 else 0
      requires Arrives(outcome) && Acceptable(config.valid, contents[..outcome.n]) ==> !std.closed
      modifies this`received, this`count, this`rejected, pool, std, splitBuf
      ensures Valid() && std.closed == old(std.closed) && retired == outcome.Fatal?
      ensures State()
           == AfterPooled(old(State()), Head(bufPointer), pool.capacity, std.capacity, HeadOf(), config.valid, outcome,
                          contents, BodyOf(bufPointer, if outcome.Got? then contents[..outcome.n] else []))
    {
      retired := false;
      if rlen > 0 {
        received := received + 1;
        assert bufPointer.slice.store[..rlen] == contents[..rlen];
        Receive(bufPointer, rlen, splitBuf);
      } else if rlen == 0 {
        pool.Return(bufPointer);
      } else {
        retired := true;
      }
    }

    /** What follows a read into the fallback buffer: a datagram, or a fatal read, spills over. */
    method AfterFallbackRead(ghost outcome: ReadOutcome, rlen: int)
      requires Valid() && rlen == if outcome.Got? then outcome.n else if outcome.Fatal? then -1 else 0
      modifies this`received, this`spillover
      ensures Valid() && State() == AfterFallback(old(State()), outcome)
    {
      if rlen > 0 {
        received := received + 1;
      }
      if rlen != 0 {
        spillover := spillover + 1;
      }
    }

    /**
     One turn of the loop of poll. A turn that retires the receiver keeps its buffer; a fatal read on
     the fallback buffer signals done and counts a spillover, but does not retire the receiver.
     */
    method PollOnce(fallBackBuffer: SlicePointer, splitBuf: array<Slice>, outcome: ReadOutcome, contents: Bytes)
      returns (retired: bool)
      requires Valid() && |contents| == config.bufferSize && Whole(fallBackBuffer, config.bufferSize)
      requires outcome.Got? ==> outcome.n <= config.bufferSize
      requires Sends(pool.buffers, config.valid, outcome, contents) ==> !std.closed
      modifies this, pool, std, splitBuf, Target(fallBackBuffer).slice.store
      ensures Valid() && std.closed == old(std.closed) && old(Target(fallBackBuffer)).slice.store[..] == contents
      ensures retired == Retires(old(pool.buffers), outcome)
      ensures State()
           == AfterPoll(old(State()), pool.capacity, std.capacity, HeadOf(), config.valid, outcome, contents,
                        BodyOf(old(Target(fallBackBuffer)), if outcome.Got? then contents[..outcome.n] else []))
      ensures var pooled, arrives := old(pool.buffers) != [], outcome.Got? && outcome.n > 0;
        var good := arrives && WellFormed(config.valid, contents[..outcome.n]);
        && received == old(received) + One(arrives) && signals == old(signals) + One(outcome.Fatal?)
        && count == old(count) + One(pooled && good) && rejected == old(rejected) + One(pooled && arrives && !good)
        && spillover == old(spillover) + One(!pooled && (arrives || outcome.Fatal?))
        && (retired <==> pooled && outcome.Fatal?)
        && (if pooled && good then
              std.c != [] && std.c[|std.c| - 1] == BodyOf(old(Target(fallBackBuffer)), contents[..outcome.n])
            else std.c == old(std.c))
    {
      ghost var x := BodyOf(Target(fallBackBuffer), if outcome.Got? then contents[..outcome.n] else []);
      var bufPointer, fallbackPointerUsed := Take(fallBackBuffer);
      var rlen := Read(bufPointer, outcome, contents);
      retired := false;
      if !fallbackPointerUsed {
        retired := AfterReading(bufPointer, outcome, rlen, splitBuf, contents);
      } else {
        AfterFallbackRead(outcome, rlen);
      }
      PollCounts(old(State()), pool.capacity, std.capacity, HeadOf(), config.valid, outcome, contents, x);
    }
  }
}
