/**
 pkg/telemetry: the archive of counter records. It is a bounded queue that drops its oldest record,
 is sent in chunks, and takes back the chunks that could not be sent.
 */
module Telemetries {
  import opened Common

  const BUFFER_SIZE := 30
  const REQUEST_SIZE := 10

  /** The queue after a record is added: the newest BUFFER_SIZE records. */
  function Queued<T>(queue: seq<T>, x: T): seq<T> {
    if |queue| < BUFFER_SIZE then queue + [x] else queue[1..] + [x]
  }

  /** What is left unsent when the backend accepts call n exactly if accepts(n), from call n on. */
  function Unsent<T>(records: seq<T>, accepts: nat -> bool, n: nat): (rest: seq<T>)
    ensures |rest| <= |records|
    decreases |records|
  {
    if records == [] || !accepts(n) then records
    else if |records| <= REQUEST_SIZE then []
    else Unsent(records[REQUEST_SIZE..], accepts, n + 1)
  }

  lemma {:induction false} UnsentIsSuffix<T>(records: seq<T>, accepts: nat -> bool, n: nat)
    ensures var rest := Unsent(records, accepts, n); rest == records[|records| - |rest|..]
    decreases |records|
  {
    if |records| > REQUEST_SIZE && accepts(n) {
      UnsentIsSuffix(records[REQUEST_SIZE..], accepts, n + 1);
    }
  }

  /** A call of PutTelemetryRecords, and whether the backend accepted it. */
  datatype Call<T> = Call(records: seq<T>, accepted: bool)

  /** The calls made to send the records: requests in order, up to the first that is not accepted. */
  function Calls<T>(records: seq<T>, accepts: nat -> bool, n: nat): seq<Call<T>>
    decreases |records|
  {
    if records == [] then []
    else if |records| <= REQUEST_SIZE then [Call(records, accepts(n))]
    else if !accepts(n) then [Call(records[..REQUEST_SIZE], false)]
    else [Call(records[..REQUEST_SIZE], true)] + Calls(records[REQUEST_SIZE..], accepts, n + 1)
  }

  /** The records in accepted calls, as often and in the order in which they were sent. */
  function Delivered<T>(calls: seq<Call<T>>): seq<T> {
    if calls == [] then [] else (if calls[0].accepted then calls[0].records else []) + Delivered(calls[1..])
  }

  lemma {:induction false} DeliveredConcat<T>(xs: seq<Call<T>>, ys: seq<Call<T>>)
    ensures Delivered(xs + ys) == Delivered(xs) + Delivered(ys)
  {
    if xs == [] {
      assert xs + ys == ys;
    } else {
      assert (xs + ys)[1..] == xs[1..] + ys;
      DeliveredConcat(xs[1..], ys);
    }
  }

  lemma Associate<T>(xs: seq<T>, ys: seq<T>, zs: seq<T>)
    ensures xs + ys + zs == xs + (ys + zs)
  {
  }

  /** The records of accepted calls and the unsent ones are the records to be sent. */
  lemma {:induction false} CallsDeliver<T>(records: seq<T>, accepts: nat -> bool, n: nat)
    ensures Delivered(Calls(records, accepts, n)) + Unsent(records, accepts, n) == records
    decreases |records|
  {
    var calls := Calls(records, accepts, n);
    if records == [] {
    } else if |records| <= REQUEST_SIZE || !accepts(n) {
      assert calls[1..] == [];
      assert Delivered(calls) == (if calls[0].accepted then calls[0].records else []) + Delivered<T>([]);
    } else {
      var rest := records[REQUEST_SIZE..];
      CallsDeliver(rest, accepts, n + 1);
      var first, later := records[..REQUEST_SIZE], Calls(rest, accepts, n + 1);
      assert calls[1..] == later;
      assert Delivered(calls) == first + Delivered(later);
      Associate(first, Delivered(later), Unsent(rest, accepts, n + 1));
      assert records == first + rest;
    }
  }

  /**
   Requests have 1 to 10 records, all but the last have 10, and none follows one that fails, which
   leaves records unsent.
   */
  lemma {:induction false} CallsAreRequests<T>(records: seq<T>, accepts: nat -> bool, n: nat)
    ensures var calls := Calls(records, accepts, n);
      && (forall k: nat | k < |calls| :: 1 <= |calls[k].records| <= 10 && calls[k].accepted == accepts(n + k))
      && (forall k: nat | k + 1 < |calls| :: calls[k].accepted && |calls[k].records| == 10)
      && (Unsent(records, accepts, n) == [] <==> calls == [] || calls[|calls| - 1].accepted)
    decreases |records|
  {
    if |records| > REQUEST_SIZE && accepts(n) {
      var rest, calls := records[REQUEST_SIZE..], Calls(records, accepts, n);
      CallsAreRequests(rest, accepts, n + 1);
      var later := Calls(rest, accepts, n + 1);
      assert later != [] && calls[|calls| - 1] == later[|later| - 1];
      forall k: nat | k < |calls|
        ensures 1 <= |calls[k].records| <= 10 && calls[k].accepted == accepts(n + k)
        ensures k + 1 < |calls| ==> calls[k].accepted && |calls[k].records| == 10
      {
        if k > 0 {
          assert calls[k] == later[k - 1];
        }
      }
    }
  }

  /**
   A history of the archive: all records ever archived, those still queued, the calls made to send
   them, and the positions in the archive of those delivered, in the order of delivery.
   */
  datatype Log<T> = Log(archived: seq<T>, queue: seq<T>, calls: seq<Call<T>>, sentAt: seq<nat>)

  ghost predicate Increasing(xs: seq<nat>) {
    forall j, k :: 0 <= j < k < |xs| ==> xs[j] < xs[k]
  }

  /** What the accepted calls have delivered is the archive at the given positions. */
  ghost predicate DeliveredAt<T>(archived: seq<T>, calls: seq<Call<T>>, sentAt: seq<nat>) {
    && |Delivered(calls)| == |sentAt|
    && forall k :: 0 <= k < |sentAt| ==> sentAt[k] < |archived| && Delivered(calls)[k] == archived[sentAt[k]]
  }

  /**
   The queue is the newest part of the archive; the accepted calls have delivered records in the order
   of the archive, none twice and none of that part; and a record in neither has at least BUFFER_SIZE
   newer ones.
   */
  ghost predicate Kept<T>(log: Log<T>) {
    Pending(log) && DeliveredAt(log.archived, log.calls, log.sentAt) && SentOnce(log)
  }

  ghost predicate Pending<T>(log: Log<T>) {
    var split := |log.archived| - |log.queue|;
    |log.queue| <= BUFFER_SIZE && split >= 0 && log.queue == log.archived[split..]
  }

  ghost predicate SentOnce<T>(log: Log<T>) {
    var split := |log.archived| - |log.queue|;
    && Increasing(log.sentAt) && (forall k :: 0 <= k < |log.sentAt| ==> log.sentAt[k] < split)
    && forall i :: 0 <= i < split && i !in log.sentAt ==> i + BUFFER_SIZE < |log.archived|
  }

  function Added<T>(log: Log<T>, x: T): Log<T> {
    Log(log.archived + [x], Queued(log.queue, x), log.calls, log.sentAt)
  }

  /** The consecutive numbers from lo up to hi. */
  function Range(lo: nat, hi: nat): (r: seq<nat>)
    ensures |r| == (if lo <= hi then hi - lo else 0) && forall k :: 0 <= k < |r| ==> r[k] == lo + k
    decreases hi - lo
  {
    if lo >= hi then [] else [lo] + Range(lo + 1, hi)
  }

  function Sent<T>(log: Log<T>, accepts: nat -> bool): Log<T>
    requires |log.queue| <= |log.archived|
  {
    var rest := Unsent(log.queue, accepts, 0);
    Log(log.archived, rest, log.calls + Calls(log.queue, accepts, 0),
        log.sentAt + Range(|log.archived| - |log.queue|, |log.archived| - |rest|))
  }

  lemma AddingKeeps<T>(log: Log<T>, x: T)
    requires Kept(log)
    ensures Kept(Added(log, x))
  {
    var t := Added(log, x);
    var split := |log.archived| - |log.queue|;
    assert t.queue == t.archived[|t.archived| - |t.queue|..];
    forall i | 0 <= i < |t.archived| - |t.queue| && i !in t.sentAt
      ensures i + BUFFER_SIZE < |t.archived|
    {
      if i < split {
        assert i + BUFFER_SIZE < |log.archived|;
      }
    }
  }

  lemma IncreasingAppend(xs: seq<nat>, lo: nat, hi: nat)
    requires Increasing(xs) && forall k :: 0 <= k < |xs| ==> xs[k] < lo
    ensures Increasing(xs + Range(lo, hi))
    ensures forall k :: 0 <= k < |xs + Range(lo, hi)| ==> (xs + Range(lo, hi))[k] < Max(lo, hi)
    ensures forall i :: lo <= i < hi ==> i in xs + Range(lo, hi)
    ensures forall i: nat :: i in xs ==> i in xs + Range(lo, hi)
  {
    forall i | lo <= i < hi
      ensures i in xs + Range(lo, hi)
    {
      assert Range(lo, hi)[i - lo] == i;
    }
  }

  /** The calls deliver exactly the records that leave the queue. */
  lemma SendingDelivers<T>(log: Log<T>, accepts: nat -> bool)
    requires Kept(log)
    ensures var t := Sent(log, accepts); DeliveredAt(t.archived, t.calls, t.sentAt)
  {
    var t, more := Sent(log, accepts), Calls(log.queue, accepts, 0);
    var split, split' := |log.archived| - |log.queue|, |t.archived| - |t.queue|;
    DeliveredConcat(log.calls, more);
    CallsDeliver(log.queue, accepts, 0);
    assert |Delivered(more)| == split' - split;
    forall k | 0 <= k < |Delivered(more)|
      ensures Delivered(more)[k] == log.archived[split + k]
    {
      assert Delivered(more)[k] == (Delivered(more) + t.queue)[k] == log.queue[k];
    }
  }

  lemma SendingKeepsOrder<T>(log: Log<T>, accepts: nat -> bool)
    requires Pending(log) && SentOnce(log)
    ensures Pending(Sent(log, accepts)) && SentOnce(Sent(log, accepts))
  {
    var t := Sent(log, accepts);
    var split, split' := |log.archived| - |log.queue|, |t.archived| - |t.queue|;
    IncreasingAppend(log.sentAt, split, split');
    UnsentIsSuffix(log.queue, accepts, 0);
    assert t.queue == t.archived[split'..];
  }

  lemma SendingKeeps<T>(log: Log<T>, accepts: nat -> bool)
    requires Kept(log)
    ensures Kept(Sent(log, accepts))
  {
    SendingKeepsOrder(log, accepts);
    SendingDelivers(log, accepts);
  }

  /** One round of pushData: a record, whether a segment has been received since the last, and what the backend accepts. */
  datatype Round<T> = Round(record: T, received: bool, accepts: nat -> bool)

  /** The archive, and whether telemetry is on, which it stays once a segment has been received. */
  datatype Engine<T> = Engine(log: Log<T>, on: bool)

  ghost function AfterRound<T>(e: Engine<T>, r: Round<T>): (t: Engine<T>)
    requires |e.log.queue| <= |e.log.archived|
    ensures |t.log.queue| <= |t.log.archived|
  {
    var on := e.on || r.received;
    Engine(Sent(if on then Added(e.log, r.record) else e.log, r.accepts), on)
  }

  ghost function AfterRounds<T>(rounds: seq<Round<T>>): (e: Engine<T>)
    ensures |e.log.queue| <= |e.log.archived|
  {
    if rounds == [] then Engine(Log([], [], [], []), false)
    else AfterRound(AfterRounds(rounds[..|rounds| - 1]), rounds[|rounds| - 1])
  }

  /** However many rounds go by and however sending fails, the archive is kept as promised. */
  lemma {:induction false} ArchiveIsKept<T>(rounds: seq<Round<T>>)
    ensures Kept(AfterRounds(rounds).log)
    ensures var log := AfterRounds(rounds).log;
      && |log.queue| <= 30
      && forall i: nat :: i < |log.archived| - |log.queue| && i !in log.sentAt ==> i + 30 < |log.archived|
  {
    if rounds != [] {
      var e, r := AfterRounds(rounds[..|rounds| - 1]), rounds[|rounds| - 1];
      ArchiveIsKept(rounds[..|rounds| - 1]);
      AddingKeeps(e.log, r.record);
      SendingKeeps(if e.on || r.received then Added(e.log, r.record) else e.log, r.accepts);
    }
  }

  /** The archive holds the records of all rounds from the first on by which a segment had been received. */
  ghost predicate Holds<T>(archived: seq<T>, rounds: seq<Round<T>>) {
    var skipped := |rounds| - |archived|;
    && skipped >= 0 && (forall k :: skipped <= k < |rounds| ==> archived[k - skipped] == rounds[k].record)
    && (forall k :: 0 <= k < skipped ==> !rounds[k].received)
    && (archived != [] ==> rounds[skipped].received)
  }

  lemma OneMoreHolds<T>(archived: seq<T>, rounds: seq<Round<T>>, r: Round<T>)
    requires Holds(archived, rounds)
    ensures Holds(if archived != [] || r.received then archived + [r.record] else [], rounds + [r])
  {
  }

  /** A round archives its record once telemetry is on, and nothing else. */
  lemma RoundArchives<T>(e: Engine<T>, r: Round<T>)
    requires |e.log.queue| <= |e.log.archived|
    ensures var on := e.on || r.received;
      AfterRound(e, r).on == on
      && AfterRound(e, r).log.archived == if on then e.log.archived + [r.record] else e.log.archived
  {
  }

  lemma {:induction false} ArchiveHoldsRounds<T>(rounds: seq<Round<T>>)
    ensures Holds(AfterRounds(rounds).log.archived, rounds)
    ensures AfterRounds(rounds).on <==> AfterRounds(rounds).log.archived != []
  {
    if rounds == [] {
      assert AfterRounds(rounds).log.archived == [];
    } else {
      var shorter, r := rounds[..|rounds| - 1], rounds[|rounds| - 1];
      var e := AfterRounds(shorter);
      assert rounds == shorter + [r] && AfterRounds(rounds) == AfterRound(e, r);
      ArchiveHoldsRounds(shorter);
      OneMoreHolds(e.log.archived, shorter, r);
      RoundArchives(e, r);
    }
  }

  ghost predicate AcceptsAll(accepts: nat -> bool) {
    forall k :: accepts(k)
  }

  lemma {:induction false} NothingUnsent<T>(records: seq<T>, accepts: nat -> bool, n: nat)
    requires AcceptsAll(accepts)
    ensures Unsent(records, accepts, n) == []
    decreases |records|
  {
    if |records| > REQUEST_SIZE {
      NothingUnsent(records[REQUEST_SIZE..], accepts, n + 1);
    }
  }

  lemma SendingAllMissesNone<T>(log: Log<T>, accepts: nat -> bool)
    requires Kept(log) && AcceptsAll(accepts)
    ensures Sent(log, accepts).queue == []
    ensures forall i: nat :: i < |log.archived| && i !in Sent(log, accepts).sentAt ==> i < |log.archived| - |log.queue|
  {
    NothingUnsent(log.queue, accepts, 0);
    IncreasingAppend(log.sentAt, |log.archived| - |log.queue|, |log.archived|);
  }

  /** A round in which the backend accepts everything leaves nothing pending: what it misses was lost before. */
  lemma AcceptedRoundSendsAll<T>(rounds: seq<Round<T>>)
    requires rounds != [] && AcceptsAll(rounds[|rounds| - 1].accepts)
    ensures var e, before := AfterRounds(rounds), AfterRounds(rounds[..|rounds| - 1]);
      && e.log.queue == []
      && forall i: nat :: i < |e.log.archived| && i !in e.log.sentAt ==> i < |before.log.archived| - |before.log.queue| + 1
  {
    var before, r := AfterRounds(rounds[..|rounds| - 1]).log, rounds[|rounds| - 1];
    ArchiveIsKept(rounds[..|rounds| - 1]);
    AddingKeeps(before, r.record);
    SendingAllMissesNone(if AfterRounds(rounds).on then Added(before, r.record) else before, r.accepts);
  }

  // The counters of a record are 32-bit cells that its copies share.

  const WORD := 0x1_0000_0000

  const COUNTERS := 10

  const SEGMENTS_RECEIVED := 0

  type Word = x: int | 0 <= x < WORD

  /** A copy of a types.TelemetryRecord: it points to the cells it was copied with. */
  datatype TelemetryRecord = TelemetryRecord(cells: array<Word>, timestamp: int)

  /** Where the sending of the records stands when those before upTo have been accepted in n calls. */
  ghost predicate Halfway<T>(records: seq<T>, accepts: nat -> bool, upTo: nat, n: nat,
                             before: seq<Call<T>>, calls: seq<Call<T>>)
  {
    && upTo <= |records|
    && Unsent(records, accepts, 0) == Unsent(records[upTo..], accepts, n)
    && calls + Calls(records[upTo..], accepts, n) == before + Calls(records, accepts, 0)
  }

  lemma HalfwayStarts<T>(records: seq<T>, accepts: nat -> bool, before: seq<Call<T>>)
    ensures Halfway(records, accepts, 0, 0, before, before)
  {
    assert records[0..] == records;
  }

  /** One more call leads on, or ends the sending if it fails. */
  lemma HalfwayGoesOn<T>(records: seq<T>, accepts: nat -> bool, i: nat, n: nat, before: seq<Call<T>>, calls: seq<Call<T>>)
    requires Halfway(records, accepts, i, n, before, calls) && i < |records|
    ensures var endIndex := Min(i + REQUEST_SIZE, |records|);
      var more := calls + [Call(records[i..endIndex], accepts(n))];
      if accepts(n) then Halfway(records, accepts, endIndex, n + 1, before, more)
      else Unsent(records, accepts, 0) == records[i..] && more == before + Calls(records, accepts, 0)
  {
    var endIndex := Min(i + REQUEST_SIZE, |records|);
    if endIndex < |records| {
      assert records[i..][REQUEST_SIZE..] == records[endIndex..] && records[i..][..REQUEST_SIZE] == records[i..endIndex];
    } else {
      assert records[endIndex..] == [] && records[i..] == records[i..endIndex];
    }
    var first := [Call(records[i..endIndex], accepts(n))];
    var later := if accepts(n) then Calls(records[endIndex..], accepts, n + 1) else [];
    assert Calls(records[i..], accepts, n) == first + later;
    Associate(calls, first, later);
  }

  lemma HalfwayEnds<T>(records: seq<T>, accepts: nat -> bool, n: nat, before: seq<Call<T>>, calls: seq<Call<T>>)
    requires Halfway(records, accepts, |records|, n, before, calls)
    ensures Unsent(records, accepts, 0) == [] && calls == before + Calls(records, accepts, 0)
  {
    assert records[|records|..] == [];
  }

  class Telemetry {
    var currentRecord: array<Word>
    var recordChan: seq<TelemetryRecord>
    var closed: bool
    var postTelemetry: bool
    ghost var archived: seq<TelemetryRecord>
    // every call of PutTelemetryRecords so far
    ghost var calls: seq<Call<TelemetryRecord>>
    ghost var sentAt: seq<nat>

    ghost function TheLog(): Log<TelemetryRecord>
      reads this
    {
      Log(archived, recordChan, calls, sentAt)
    }

    ghost predicate Valid()
      reads this
    {
      currentRecord.Length == COUNTERS && Kept(TheLog()) && (recordChan != [] ==> postTelemetry)
    }

    constructor ()
      ensures Valid() && !closed && !postTelemetry
      ensures TheLog() == Log([], [], [], [])
      ensures fresh(currentRecord) && forall k :: 0 <= k < COUNTERS ==> currentRecord[k] == 0
    {
      currentRecord := new Word[COUNTERS](_ => 0);
      recordChan, closed, postTelemetry := [], false, false;
      archived, calls, sentAt := [], [], [];
    }

    /** SegmentReceived; the other counters only add. */
    method SegmentReceived(count: int)
      requires Valid()
      modifies this`postTelemetry, currentRecord
      ensures Valid() && postTelemetry
      ensures currentRecord[..]
           == old(currentRecord[..])[SEGMENTS_RECEIVED := (old(currentRecord[SEGMENTS_RECEIVED]) + count) % WORD]
    {
      currentRecord[SEGMENTS_RECEIVED] := (currentRecord[SEGMENTS_RECEIVED] + count) % WORD;
      postTelemetry := true;
    }

    /** The queue drops its oldest record for a new one; before the first segment nothing is queued. */
    method Add(record: TelemetryRecord)
      requires |recordChan| <= BUFFER_SIZE
      modifies this`recordChan
      ensures recordChan == if postTelemetry then Queued(old(recordChan), record) else old(recordChan)
      decreases |recordChan|
    {
      if postTelemetry {
        if |recordChan| < BUFFER_SIZE {
          recordChan := recordChan + [record];
        } else if recordChan != [] {
          recordChan := recordChan[1..];
          Add(record);
        }
      }
    }

    method CollectAllRecords() returns (records: seq<TelemetryRecord>)
      requires |recordChan| <= BUFFER_SIZE
      modifies this`recordChan
      ensures records == old(recordChan) && recordChan == []
    {
      records := [];
      var done := false;
      while !done
        invariant records + recordChan == old(recordChan)
        invariant done ==> recordChan == []
        decreases |recordChan|, !done
      {
        if recordChan != [] {
          var record := recordChan[0];
          recordChan := recordChan[1..];
          if |records| < BUFFER_SIZE {
            records := records + [record];
          }
        } else {
          done := true;
        }
      }
    }

    /** The backend's verdict on a request, which is the only place where one is made. */
    method PutTelemetryRecords(recordsToSend: seq<TelemetryRecord>, accepted: bool) returns (failed: bool)
      modifies this`calls
      ensures failed == !accepted && calls == old(calls) + [Call(recordsToSend, accepted)]
    {
      calls := calls + [Call(recordsToSend, accepted)];
      failed := !accepted;
    }

    /**
     Sends the records in requests of at most REQUEST_SIZE and stops at the first that fails; call n
     succeeds exactly if accepts(n).
     */
    method SendRecords(records: seq<TelemetryRecord>, accepts: nat -> bool)
      returns (rest: seq<TelemetryRecord>, failed: bool)
      modifies this`calls
      ensures rest == Unsent(records, accepts, 0) && (failed <==> rest != [])
      ensures calls == old(calls) + Calls(records, accepts, 0)
    {
      var i, n := 0, 0;
      ghost var before := calls;
      HalfwayStarts(records, accepts, before);
      while i < |records|
        invariant 0 <= i && Halfway(records, accepts, Min(i, |records|), n, before, calls)
        decreases |records| - i
      {
        var endIndex := |records|;
        if endIndex > i + REQUEST_SIZE {
          endIndex := i + REQUEST_SIZE;
        }
        var recordsToSend := records[i..endIndex];
        HalfwayGoesOn(records, accepts, i, n, before, calls);
        var err := PutTelemetryRecords(recordsToSend, accepts(n));
        if err {
          return records[i..], true;
        }
        i, n := i + REQUEST_SIZE, n + 1;
      }
      HalfwayEnds(records, accepts, n, before, calls);
      return [], false;
    }

    /** Every queued record is sent at most once, and exactly the unsent ones are queued again, in order. */
    method SendAll(accepts: nat -> bool)
      requires |recordChan| <= BUFFER_SIZE && (recordChan != [] ==> postTelemetry)
      modifies this`recordChan, this`calls
      ensures recordChan == Unsent(old(recordChan), accepts, 0)
      ensures calls == old(calls) + Calls(old(recordChan), accepts, 0)
    {
      var records := CollectAllRecords();
      var recordsNoSend, failed := SendRecords(records, accepts);
      if failed {
        for k := 0 to |recordsNoSend|
          modifies this`recordChan
          invariant recordChan == recordsNoSend[..k]
        {
          Add(recordsNoSend[k]);
        }
      }
    }

    /** Rotates the current record out and archives it. */
    method Archive(now: int)
      requires Valid()
      modifies this`currentRecord, this`recordChan, this`archived
      ensures Valid()
      ensures fresh(currentRecord) && forall k :: 0 <= k < COUNTERS ==> currentRecord[k] == 0
      ensures TheLog()
           == if postTelemetry then Added(old(TheLog()), TelemetryRecord(old(currentRecord), now)) else old(TheLog())
    {
      ghost var start := TheLog();
      var record := TelemetryRecord(currentRecord, now);
      currentRecord := new Word[COUNTERS](_ => 0);
      Add(record);
      if postTelemetry {
        AddingKeeps(start, record);
        archived := archived + [record];
        assert TheLog() == Added(start, record);
      }
    }

    /** Sends the archive, and notes which of its records that has delivered. */
    method SendArchive(accepts: nat -> bool)
      requires Valid()
      modifies this`recordChan, this`calls, this`sentAt
      ensures Valid() && TheLog() == Sent(old(TheLog()), accepts)
    {
      ghost var before := TheLog();
      SendingKeeps(before, accepts);
      SendAll(accepts);
      sentAt := sentAt + Range(|archived| - |before.queue|, |archived| - |recordChan|);
      assert TheLog() == Sent(before, accepts);
    }

    /** One round: the current record is archived, and the archive is sent. */
    method PushData(quit: bool, now: int, accepts: nat -> bool)
      requires Valid() && !closed
      modifies this
      ensures Valid() && closed == quit && postTelemetry == old(postTelemetry)
      ensures fresh(currentRecord) && forall k :: 0 <= k < COUNTERS ==> currentRecord[k] == 0
      ensures var record := TelemetryRecord(old(currentRecord), now);
        TheLog() == Sent(if postTelemetry then Added(old(TheLog()), record) else old(TheLog()), accepts)
    {
      Archive(now);
      SendArchive(accepts);
      closed := quit;
    }
  }
}
