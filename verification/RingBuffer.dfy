/** pkg/ringbuffer: the bounded queue between receivers and processor; when full it drops its oldest segment. */
module RingBuffers {
  import opened Util
  import opened BufferPools
  import opened Outcomes

  const DEFAULT_CAPACITY := 250

  /** The capacity for a number of pool buffers: that number, but at least DEFAULT_CAPACITY. */
  function ChannelSize(bufferCount: int): (capacity: int)
    ensures capacity >= bufferCount && capacity >= 250
    ensures capacity == bufferCount || capacity == 250
  {
    if bufferCount < DEFAULT_CAPACITY then DEFAULT_CAPACITY else bufferCount
  }

  /** A segment document inside a pool buffer. */
  datatype TraceSegment = TraceSegment(raw: Slice, poolBuf: SlicePointer)

  /** The address of a segment's buffer. */
  ghost function HeadOf(): TraceSegment -> Address {
    (ts: TraceSegment) => Head(ts.poolBuf)
  }

  class RingBuffer {
    var c: seq<TraceSegment>
    const capacity: nat
    var closed: bool
    var Empty: bool
    var count: nat
    const pool: BufferPool
    // the segments reported to telemetry as spilled over
    var spillover: nat

    /** The queued segments can be returned to the pool. */
    ghost predicate Valid()
      reads this, pool
    {
      && pool.Valid() && |c| <= capacity && capacity > 0
      && forall ts <- c :: NonEmpty(ts.poolBuf)
    }

    ghost function State(): RingState<Address, TraceSegment>
      reads this, pool
    {
      RingState(pool.Heads(), c, count)
    }

    /** The program exits when bufferCount is 0. */
    constructor (bufferCount: int, pool: BufferPool)
      requires bufferCount != 0 && pool.Valid()
      ensures Valid() && this.pool == pool && capacity == ChannelSize(bufferCount)
      ensures c == [] && !closed && !Empty && count == 0 && spillover == 0
    {
      capacity := ChannelSize(bufferCount);
      this.pool := pool;
      c, closed, Empty, count, spillover := [], false, false, 0, 0;
    }

    /** Sends s, after dropping the oldest segment and returning its buffer if the queue is full. */
    method Send(s: TraceSegment)
      requires Valid() && !closed && NonEmpty(s.poolBuf)
      modifies this, pool
      ensures Valid() && !closed && Empty == old(Empty)
      ensures State() == AfterSend(old(State()), pool.capacity, capacity, HeadOf(), s)
      ensures spillover - old(spillover) == count - old(count)
      ensures |old(c)| < capacity ==> c == old(c) + [s] && count == old(count)
      ensures |old(c)| == capacity ==>
        && c == old(c)[1..] + [s] && count == old(count) + 1
        && pool.Heads() == Returned(old(pool.Heads()), pool.capacity, Head(old(c)[0].poolBuf))
      ensures |old(c)| < capacity ==> pool.buffers == old(pool.buffers)
      ensures forall p <- pool.buffers :: p in old(pool.buffers) || (old(c) != [] && p == old(c)[0].poolBuf)
      decreases |c|
    {
      if |c| < capacity {
        c := c + [s];
      } else {
        if c != [] {
          var segmentTruncated := c[0];
          c := c[1..];
          count := count + 1;
          pool.Return(segmentTruncated.poolBuf);
          spillover := spillover + 1;
        }
        Send(s);
      }
    }

    method Close()
      requires !closed
      modifies this`closed
      ensures closed
    {
      closed := true;
    }

    method TruncatedCount() returns (n: nat)
      ensures n == count
    {
      n := count;
    }
  }
}
