/** pkg/processor/batchprocessor.go: the bounded queue of batches and the loop that empties it. */
module BatchProcessors {
  import opened Common
  import opened Outcomes

  /** All the ids up to and including the first that is nil are n. */
  ghost predicate Counted(ids: seq<Option<string>>, n: int) {
    && 0 <= n <= |ids| && (forall k :: 0 <= k < n - 1 ==> ids[k].Some?)
    && (n == |ids| || (n > 0 && ids[n - 1].None?))
  }

  class SegmentsBatch {
    var batches: seq<seq<Bytes>>
    const capacity: nat
    var closed: bool
    var done: bool
    // telemetry counts
    var sent: nat
    var spillover: nat
    var rejected: nat
    // the errors handed to EvaluateConnectionError, and the segments they concern
    var evaluatedErrors: nat
    ghost var failed: nat

    ghost predicate Valid()
      reads this
    {
      |batches| <= capacity
    }

    ghost function State(): UploadState
      reads this
    {
      UploadState(batches, sent, rejected, failed, done)
    }

    constructor (capacity: nat)
      ensures Valid() && this.capacity == capacity && batches == [] && !closed && !done
      ensures sent == 0 && spillover == 0 && rejected == 0 && evaluatedErrors == 0 && failed == 0
    {
      this.capacity := capacity;
      failed := 0;
      batches, closed, done, sent, spillover, rejected, evaluatedErrors := [], false, false, 0, 0, 0, 0;
    }

    /**
     Queues the batch, after dropping the oldest one if the queue is full. With no capacity at all it
     would try until a poller happens to be waiting.
     */
    method Send(batch: seq<Bytes>)
      requires Valid() && !closed && capacity > 0
      modifies this`batches, this`spillover
      ensures Valid() && batches == Pushed(old(batches), capacity, batch)
      ensures spillover == old(spillover) + Dropped(old(batches), capacity)
      ensures |old(batches)| < capacity ==> batches == old(batches) + [batch] && spillover == old(spillover)
      ensures |old(batches)| == capacity ==>
        batches == old(batches)[1..] + [batch] && spillover == old(spillover) + |old(batches)[0]|
      decreases |batches|
    {
      if |batches| < capacity {
        batches := batches + [batch];
      } else {
        if batches != [] {
          var batchTruncated := batches[0];
          batches := batches[1..];
          spillover := spillover + |batchTruncated|;
        }
        Send(batch);
      }
    }

    /** One turn of poll, when the queue has a batch or is closed. */
    method PollOnce(result: PutResult) returns (taken: Option<seq<Bytes>>)
      requires Valid() && !done && (batches != [] || closed)
      modifies this
      ensures Valid() && closed == old(closed) && spillover == old(spillover)
      ensures taken == if old(batches) == [] then None else Some(old(batches)[0])
      ensures State() == AfterUpload(old(State()), result)
      ensures done <==> old(batches) == []
      ensures taken.None? ==> batches == [] && sent == old(sent) && rejected == old(rejected) && failed == old(failed)
      ensures taken.Some? ==> batches == old(batches)[1..]
      ensures taken.Some? && result.Failed? ==>
        sent == old(sent) && rejected == old(rejected) && failed == old(failed) + |taken.value|
      ensures taken.Some? && result.Uploaded? ==>
        && sent == old(sent) + |taken.value| && failed == old(failed)
        && Counted(result.unprocessed, rejected - old(rejected))
      ensures evaluatedErrors == old(evaluatedErrors) + if taken.Some? && result.Failed? then 1 else 0
    {
      if batches != [] {
        var batch := batches[0];
        batches := batches[1..];
        taken := Some(batch);
        match result {
          case Failed =>
            evaluatedErrors := evaluatedErrors + 1;
            failed := failed + |batch|;
          case Uploaded(unprocessed) =>
            sent := sent + |batch|;
            var k := 0;
            while k < |unprocessed|
              invariant k <= |unprocessed| && rejected == old(rejected) + k
              invariant forall j :: 0 <= j < k ==> unprocessed[j].Some?
              modifies this`rejected
            {
              rejected := rejected + 1;
              k := k + 1;
              if unprocessed[k - 1].None? {
                break;
              }
            }
        }
      } else {
        done := true;
        taken := None;
      }
    }

    method Close()
      requires !closed
      modifies this`closed
      ensures closed
    {
      closed := true;
    }
  }
}
