/** What the functions of Outcomes mean: which datagrams get through, and what every turn counts and queues. */
module Laws {
  import opened Common
  import opened Outcomes
  import opened Util

  /** The text is a valid header without a newline, a newline (byte 10), and a body that is not empty. */
  ghost predicate WellFormed(valid: Bytes -> bool, text: Bytes) {
    exists header, body :: IsMadeOf(text, header, body) && valid(header)
  }

  ghost predicate IsMadeOf(text: Bytes, header: Bytes, body: Bytes) {
    10 as byte !in header && body != [] && text == header + [10 as byte] + body
  }

  lemma MadeOf(text: Bytes, header: Bytes, body: Bytes)
    requires IsMadeOf(text, header, body)
    ensures header == Header(text, NEWLINE) && body == Body(text, NEWLINE)
  {
    SplitRoundTrip(header, NEWLINE, body);
    assert text == header + [NEWLINE] + body;
  }

  /** Exactly the well-formed datagrams are acceptable. */
  lemma AcceptableExactlyIf(valid: Bytes -> bool, text: Bytes)
    ensures Acceptable(valid, text) <==> WellFormed(valid, text)
    ensures Acceptable(valid, text) ==> IsMadeOf(text, Header(text, NEWLINE), Body(text, NEWLINE))
  {
    SplitReassembles(text, NEWLINE);
    if NEWLINE !in text {
      assert Body(text, NEWLINE) == [];
    }
    if Acceptable(valid, text) {
      assert IsMadeOf(text, Header(text, NEWLINE), Body(text, NEWLINE));
    }
    if WellFormed(valid, text) {
      var header, body :| IsMadeOf(text, header, body) && valid(header);
      MadeOf(text, header, body);
    }
  }

  function One(b: bool): nat {
    if b then 1 else 0
  }

  /** What a receiver's turn counts, by what it reads and whether it has a pool buffer. */
  lemma PollCounts<K, S>(s: PollState<K, S>, buffers: nat, capacity: nat, bufOf: S -> K, valid: Bytes -> bool,
                         outcome: ReadOutcome, contents: Bytes, x: S)
    requires outcome.Got? ==> outcome.n <= |contents|
    ensures var t := AfterPoll(s, buffers, capacity, bufOf, valid, outcome, contents, x);
      var pooled, arrives := s.shared.pool != [], outcome.Got? && outcome.n > 0;
      var good := arrives && WellFormed(valid, contents[..outcome.n]);
      && t.received == s.received + One(arrives)
      && t.counted == s.counted + One(pooled && good)
      && t.rejected == s.rejected + One(pooled && arrives && !good)
      && t.overflowed == s.overflowed + One(!pooled && (arrives || outcome.Fatal?))
      && t.signals == s.signals + One(outcome.Fatal?)
      && (if pooled && good then t.shared.ring != [] && t.shared.ring[|t.shared.ring| - 1] == x
          else t.shared.ring == s.shared.ring && t.shared.truncated == s.shared.truncated)
  {
    if Arrives(outcome) {
      AcceptableExactlyIf(valid, contents[..outcome.n]);
    }
  }

  /** What a receiver's turn does with the pool, if the buffer on top may be handed back, and with a ring that has room. */
  lemma PollPools<K, S>(s: PollState<K, S>, buffers: nat, capacity: nat, bufOf: S -> K, valid: Bytes -> bool,
                        outcome: ReadOutcome, contents: Bytes, x: S)
    requires outcome.Got? ==> outcome.n <= |contents|
    requires s.shared.pool != [] ==> var top := |s.shared.pool| - 1;
      top < buffers && s.shared.pool[top] !in s.shared.pool[..top]
    requires |s.shared.ring| < capacity
    ensures var t := AfterPoll(s, buffers, capacity, bufOf, valid, outcome, contents, x).shared;
      var sends := s.shared.pool != [] && outcome.Got? && outcome.n > 0 && WellFormed(valid, contents[..outcome.n]);
      && t.pool == (if s.shared.pool != [] && (sends || outcome.Fatal?) then s.shared.pool[..|s.shared.pool| - 1]
                    else s.shared.pool)
      && t.ring == (if sends then s.shared.ring + [x] else s.shared.ring) && t.truncated == s.shared.truncated
  {
    if Arrives(outcome) {
      AcceptableExactlyIf(valid, contents[..outcome.n]);
    }
  }

  /** A full ring loses its oldest segment, and only that one. */
  lemma SendDropsOldest<K, S>(s: RingState<K, S>, buffers: nat, capacity: nat, bufOf: S -> K, x: S)
    requires 0 < capacity && |s.ring| <= capacity
    ensures var t := AfterSend(s, buffers, capacity, bufOf, x);
      if |s.ring| < capacity then t == s.(ring := s.ring + [x])
      else
        && t.ring == s.ring[1..] + [x] && t.truncated == s.truncated + 1
        && (bufOf(s.ring[0]) !in s.pool && |s.pool| < buffers ==> t.pool == s.pool + [bufOf(s.ring[0])])
  {
  }

  /** Buffers that are not yet listed and for which there is room all go back, in order. */
  lemma {:induction false} AllGoBack<K>(pool: seq<K>, buffers: nat, ks: seq<K>, n: nat)
    requires n <= |ks| && |pool| + n <= buffers
    requires forall i :: 0 <= i < n ==> ks[i] !in pool
    requires forall i, j :: 0 <= i < j < n ==> ks[i] != ks[j]
    ensures ReturnedAll(pool, buffers, ks, n) == pool + ks[..n]
  {
    if n > 0 {
      AllGoBack(pool, buffers, ks, n - 1);
      assert ks[..n] == ks[..n - 1] + [ks[n - 1]];
    }
  }

  /** What a turn of the processor does to the batch, the queue and its counts. */
  lemma SelectCounts<K, S>(s: SelectState<K, S>, limits: Limits, bufOf: S -> K, event: Event, docs: seq<Bytes>)
    requires event.SegmentArrives? ==> s.ring != []
    requires 0 < limits.queue && |s.queue| <= limits.queue
    ensures var t := AfterSelect(s, limits, bufOf, event, docs);
      var batched := if event.SegmentArrives? then s.batch + [s.ring[0]] else s.batch;
      var sends :=
        (event.SegmentArrives? && (|batched| >= limits.batchSize || s.pool == [])) || (event.TimerFires? && s.batch != []);
      && t.batch == (if sends then [] else batched)
      && t.ring == (if event.SegmentArrives? then s.ring[1..] else s.ring)
      && t.processed == s.processed + One(event.SegmentArrives?) && t.closed == s.closed
      && (!sends ==> t.queue == s.queue && t.spilled == s.spilled && t.pool == s.pool)
      && (sends && |s.queue| < limits.queue ==> t.queue == s.queue + [docs] && t.spilled == s.spilled)
      && (sends && |s.queue| == limits.queue ==>
           t.queue == s.queue[1..] + [docs] && t.spilled == s.spilled + |s.queue[0]|)
  {
  }

  /** What a poller's turn counts. */
  lemma UploadCounts(s: UploadState, result: PutResult)
    ensures var t := AfterUpload(s, result);
      if s.queue == [] then t == s.(finished := true)
      else
        && t.queue == s.queue[1..] && t.finished == s.finished
        && match result
           case Failed => t.sent == s.sent && t.rejected == s.rejected && t.failed == s.failed + |s.queue[0]|
           case Uploaded(ids) =>
             t.sent == s.sent + |s.queue[0]| && t.failed == s.failed && t.rejected == s.rejected + Rejections(ids)
  {
  }
}
