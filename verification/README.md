# Verification of the X-Ray daemon's segment pipeline

The daemon receives trace segments as datagrams, batches them, and uploads the batches. The project
models how segments and buffers move through it, and proves what holds of that in every run.

A receiver takes a buffer from a pool, reads a datagram into it, splits header from body, and puts a
segment on a ring; the segment points into the buffer and copies nothing. One processor takes segments
off the ring, batches them, copies the documents out, returns the buffers, and puts each batch on a
bounded queue. Pollers take batches off the queue and upload them. When the socket is closed the stages
shut down one after the other. A telemetry goroutine counts what happens to segments, and archives and
sends its counter records.

## How the model is laid out

`Pipeline` is a step system for the whole daemon: any number of receivers and pollers, the processor,
main and the telemetry goroutine, interleaved one channel operation or pool call at a time.
`ReceiverMove` follows `poll` and `read` (cmd/tracing/daemon.go:261-343) and the ring's `Send`
(pkg/ringbuffer/ringbuffer.go:71-87); `ProcessorBack` and `ProcessorFront` follow the processor
(pkg/processor/processor.go:101-178) and the queue's `send` (pkg/processor/batchprocessor.go:46-62);
`PollerBack` follows a poller (pkg/processor/batchprocessor.go:64-121), and `ControlApply` follows
`close` and `stop` (cmd/tracing/daemon.go:238-258). There is one step for every branch. `Reachable` says
that some run from the initial state ends in a state. `Config.Wired` asks for what the daemon's own
configuration gives: at least one buffer, a positive buffer size, batch limit and queue capacity.

- `Ownership`, `Flow`, `Shutdown` and `Accounting` each prove that every step keeps one part of the
  invariant; `Invariant` puts the parts together; `Guarantees` says what follows for reachable states.
- `Termination` has the measure that every working step after the socket is closed decreases;
  `Finishing` settles when a shutdown can be completed, and when in an orderly way.
- `ClosePanic` settles when closing can go wrong, and `BatchSizes` which sizes of batches get queued.
- `History`, `Uploads` and `LastRound` read off the actions of a run what it did, and prove that the
  state it ends in says the same: which datagrams were read, accepted, refused, lost and sent on, which
  batches were uploaded, given up or dropped, and in which order the goroutines closed.
- `BufferPools`, `RingBuffers`, `BatchProcessors`, `Processors`, `Daemons` and `Telemetries` are the
  daemon's classes, whose methods update fields and byte stores in place.
- `Outcomes` has functions that say what a turn of a goroutine does to pool, ring, batch and queue,
  whatever names the buffers. The contracts of `Daemon.PollOnce`, `RingBuffer.Send`,
  `Processor.PollOnce`, `Processor.Finish` and `SegmentsBatch.PollOnce` equate the new state of the
  object with them, and `Turns` proves that the steps of a turn that nothing interrupts lead to the
  state that the same functions give. `Laws` says what the functions mean, without them: exactly which
  datagrams get through, what each turn counts, and what it queues, drops and hands back.
- `Telemetries` also treats the archive over all rounds, and `Counters` the counters while records
  rotate under them.
- `Latency` puts a clock beside the processor's loop; `Sizing` is the arithmetic of buffer counts;
  `Util` is the header split; `Common` holds sums and sequences.

## What the proofs show about the code

- The branch of the ring that drops its oldest segment is never taken in the daemon: the ring is at
  least as large as the pool, and queued segments and the sender hold distinct pool buffers
  (`Guarantees.RingNeverTruncates`).
- A fatal read is handled differently on the fallback buffer (cmd/tracing/daemon.go:302-307): the
  receiver has signalled `done`, but counts a spillover and loops instead of returning. Main can then
  count one receiver twice and close the ring under a receiver that goes on to send.
  - A read may be fatal while the socket is open. Over all runs, a send on the closed ring is possible
    exactly when there is a receiver and some datagram is accepted at all
    (`ClosePanic.CanPanicExactlyIf`). One receiver is enough: its own sends empty the pool, its fatal
    reads on the fallback buffer make main close the ring, the processor returns a buffer, and the
    receiver reads into that buffer, accepts and sends (`ClosePanic.LonePanicRun`).
  - If every fatal read comes after the socket is closed, it takes two or more receivers
    (`ClosePanic.PanicsExactlyIf`); two is the default.
  - Without a fatal read on a fallback buffer nothing panics, and the shutdown is orderly. That can
    come about exactly when there are at least as many buffers as receivers, since each receiver
    retires with one (`Finishing.OrderlyFinishExactlyIf`).
- A segment can stay batched longer than `sendIdleTimeout` when turns of the processor take time: when
  a segment and the timer are both ready the select may take either, so a due timer can wait for a
  whole batch. `Latency.PossibleDelays` gives exactly the delays that can occur.
- `SplitHeaderBody` is safe exactly for separators of at most one byte: with a longer one the
  comparison can slice past the end (`Util.SeparatorsThatNeverPanic`). The daemon's has one byte.
- The number of buffers fills the memory limit exactly when the limit in bytes does not overflow and
  the quotient survives its trip through a float (`Sizing.CountFillsLimitExactlyIf`).

## Model

The main results come first, then the lemmas behind them, then the classes.

| member | source | states |
|---|---|---|
| Guarantees.DocumentsAreBodiesInOrder | pkg/processor/processor.go:164-178 | Bodies of the datagrams put on the ring, in order, equal dequeued batches, queued batches, copied documents, batched and queued segments: none lost, altered, repeated or reordered though buffers are reused |
| Guarantees.EveryBufferInOnePlace | cmd/tracing/daemon.go:285-341 | In every reachable state each initial buffer is in exactly one of: pool, a receiver, ring, current batch |
| Guarantees.EveryReturnAccepted | pkg/bufferpool/bufferpool.go:61-77 | Every buffer the daemon is about to hand back will be accepted, neither a duplicate nor beyond capacity |
| Guarantees.RingNeverTruncates | pkg/ringbuffer/ringbuffer.go:62-87 | A receiver about to send finds room on the ring, and the truncated count is always 0 |
| Guarantees.LedgerBalances | cmd/tracing/daemon.go:293-341 | Received datagrams and fatal fallback reads equal rejected, dropped, truncated, shed, sent, failed and in-flight ones |
| History.CountsMatchTheRun | cmd/tracing/daemon.go:293-341 | In every run received, accepted, truncated and fatal fallback counts are the numbers of the actions that bring them; the rejected and spilled-over counts, with the receivers about to count one, are the numbers of refused datagrams, and of datagrams and fatal reads that found no buffer |
| History.EveryVerdictIsRight | cmd/tracing/daemon.go:310-341 | In every run a receiver accepts and sends only if what it has read last is a valid header without a newline, a newline and a body that is not empty, and refuses only if it is not |
| History.EveryPushedBodyWasRead | cmd/tracing/daemon.go:310-341 | The bodies put on the ring are those of the datagrams that the run's sends are of, in order, and each comes from a well-formed datagram read in the run |
| Uploads.UploadsMatchTheRun | pkg/processor/batchprocessor.go:46-97 | In every run sent is the total size of the batches taken off the queue and then put with success, failed of those whose put failed, shed of those dropped from the full queue; unprocessed is the sum of what the successful puts report, processed the number of segments taken |
| LastRound.LastRoundIsPushed | pkg/telemetry/telemetry.go:270-300 | In a run that finishes, the ring is closed, telemetry told to quit, its records pushed one last time, and its end announced: each exactly once, in this order |
| BatchSizes.QueuesExactly | cmd/tracing/daemon.go:206 | A batch of n documents can be queued exactly if there is a receiver, some datagram is accepted, and n is from 1 to the batch limit or the number of buffers, whichever is smaller |
| Laws.AcceptableExactlyIf | cmd/tracing/daemon.go:310-333 | A datagram is acceptable exactly if it is a header without a newline that is valid, a newline and a body that is not empty |
| Guarantees.SendTakesAtMostTwoTries | pkg/processor/batchprocessor.go:46-62 | While sending, the queue is open, the batch has 1 to batchSize documents, and a second try-send always finds room whatever the pollers do |
| Guarantees.SignalsMeanRetirement | cmd/tracing/daemon.go:261-309 | Each receiver has signalled done exactly as often as it has retired if and only if no fatal read hit a fallback buffer |
| Guarantees.CloseIsSafe | cmd/tracing/daemon.go:238-253 | Without such a read the ring closes only after all receivers have retired, and nothing panics |
| Guarantees.DoneMeansDrained | pkg/processor/processor.go:127-135 | When the processor announces it is done, ring and batch are empty, ring and queue closed, all pollers gone, and with a poller the queue is empty |
| Guarantees.ShutdownCompletes | cmd/tracing/daemon.go:238-258 | After the socket is closed every run has boundedly many working steps, plus one per telemetry round, and can only come to rest finished or panicked |
| Guarantees.CleanFinish | cmd/tracing/daemon.go:238-253 | A finished shutdown without a fatal fallback read has dealt with every accepted segment and has every buffer but one per receiver back in the pool |
| Finishing.OrderlyFinishExactlyIf | cmd/tracing/daemon.go:238-309 | A finish without a fatal fallback read can be reached exactly if there are at least as many buffers as receivers |
| Finishing.ShutdownCanComplete | cmd/tracing/daemon.go:238-258 | From every reachable state with the socket closed some run goes on until main has finished or a send has panicked |
| ClosePanic.CanPanicExactlyIf | cmd/tracing/daemon.go:238-309 | Over all runs, a send on the closed ring is possible exactly if there is a receiver and some datagram is accepted |
| ClosePanic.PanicsExactlyIf | cmd/tracing/daemon.go:238-309 | Over the runs whose fatal reads come after the socket is closed, exactly if there are two or more receivers and some datagram is accepted |
| Telemetries.ArchiveIsKept | pkg/telemetry/telemetry.go:270-376 | After any rounds with any failures the pending records are the newest of the archive, at most 30; the requests the backend has accepted hold archived records in order, none twice and none of those pending; a record in neither has at least 30 newer ones |
| Counters.CountsAreConserved | pkg/telemetry/telemetry.go:119-290 | In every interleaving of increments and rotations each counter, summed over all records ever installed, equals the completed increments modulo 2^32 |
| Counters.EveryRecordHoldsItsOwn | pkg/telemetry/telemetry.go:119-290 | In every interleaving each counter of each record ever installed holds the completed increments whose thread had loaded that record, modulo 2^32, however late they come |
| Latency.PossibleDelays | pkg/processor/processor.go:101-188 | The delays that batching can cause are exactly those from 0 to the longest: a turn if every segment is a batch, else the timeout, or the first turn if longer, plus a turn for each further segment of a full batch |
| Sizing.CountFillsLimitExactlyIf | pkg/bufferpool/bufferpool.go:102-111 | The buffers fit the limit and one more would not, exactly if the limit in bytes does not overflow and a float can hold the quotient |
| Util.SeparatorsThatNeverPanic | pkg/util/util.go:29-33 | Exactly the separators of at most one byte can be split on whatever lies behind the text |
| Turns.PollTurn | cmd/tracing/daemon.go:284-342 | Whatever its read comes to, on a pool buffer or on the fallback, the uninterrupted steps of a receiver's turn lead to Outcomes.AfterPoll of the state, with which Daemon.PollOnce equates its own |
| Turns.SelectTurn | pkg/processor/processor.go:105-151 | The uninterrupted steps of the processor on a segment or on the idle timer lead to Outcomes.AfterSelect of the state, with which Processor.PollOnce equates its own |
| Turns.ClosedTurn | pkg/processor/processor.go:105-130 | On a closed, empty ring they lead to Outcomes.AfterLoop of the state, with which Processor.Finish equates its own |
| Turns.UploadTurn | pkg/processor/batchprocessor.go:64-121 | The uninterrupted steps of a poller's turn lead to Outcomes.AfterUpload of the state, with which SegmentsBatch.PollOnce equates its own |
| Turns.SendTurn | pkg/ringbuffer/ringbuffer.go:71-87 | Those of a send to the ring, full or not, lead to Outcomes.AfterSend of the state, with which RingBuffer.Send equates its own |
| Turns.SubmitTurn | pkg/processor/processor.go:164-178 | Those of sending a batch lead to Outcomes.AfterSubmit of the state, with which Processor.SendBatchAsync equates its own |
| Laws.PollCounts | cmd/tracing/daemon.go:284-342 | What a receiver's turn counts, for every read outcome: a datagram is received; with a pool buffer it is accepted if well formed and rejected if not; without one it, or a fatal read, spills over; only an accepted one is last on the ring |
| Laws.PollPools | cmd/tracing/daemon.go:285-341 | The turn keeps the buffer it takes exactly if it sends or retires; else the pool is as before |
| Laws.SendDropsOldest | pkg/ringbuffer/ringbuffer.go:71-87 | A send to a ring with room only appends; a full one loses its oldest segment and hands back that buffer |
| Laws.SelectCounts | pkg/processor/processor.go:101-151 | What a turn of the processor takes off the ring, when it sends the batch, and that a full queue drops exactly its oldest batch |
| Laws.AllGoBack | pkg/processor/processor.go:167-173 | Distinct buffers that are not listed and for which there is room all go back, in order |
| Laws.UploadCounts | pkg/processor/batchprocessor.go:64-97 | A failed upload counts only as failed, a successful one as sent together with its rejected segments |
| History.RunsAreRemembered | cmd/tracing/daemon.go:284-341 | A receiver works on the datagram it has read last, and what has been put on the ring is the bodies of those at each send |
| History.SignalsMatchTheRun | cmd/tracing/daemon.go:261-277 | The signals from a receiver are the numbers of its signalling actions |
| LastRound.ClosingStepsSoFar | cmd/tracing/daemon.go:238-253 | In every run the closing steps taken are exactly those that lead to where main and telemetry stand |
| BatchSizes.QueuedSizes | pkg/processor/processor.go:138-151 | Every queued batch has a size within those bounds, and comes from an accepted datagram |
| ClosePanic.LonePanicRun | cmd/tracing/daemon.go:302-342 | The run of a single receiver that panics, for every wired configuration |
| ClosePanic.PanicRun | cmd/tracing/daemon.go:302-307 | The run of two receivers that panics though every fatal read comes after the socket is closed |
| ClosePanic.OnlySendsPanic | pkg/ringbuffer/ringbuffer.go:71-87 | From a good state only a receiver's send on the closed ring panics |
| ClosePanic.StepKeepsSolo | cmd/tracing/daemon.go:302-309 | With one receiver, a fallback signal after the socket is closed leaves that receiver empty-handed from then on |
| Termination.StepShrinks | cmd/tracing/daemon.go:238-258 | After the socket is closed every step but a timer's decreases the measure |
| Termination.ShutdownIsBounded | cmd/tracing/daemon.go:238-258 | The number of working steps in a run is bounded by the measure it starts with, plus its telemetry rounds |
| Termination.NeverStuck | cmd/tracing/daemon.go:238-253 | Before main has finished or the program has panicked, some working step is possible |
| Invariant.StepKeepsGood | cmd/tracing/daemon.go:279-343 | Every step of every goroutine keeps the whole invariant |
| Invariant.RunsStayGood | cmd/tracing/daemon.go:279-343 | Every run keeps the whole invariant |
| Ownership.Returnable | pkg/bufferpool/bufferpool.go:61-77 | A buffer held outside the pool is not listed in it, and the pool has room for it |
| Ownership.ReceiverKeepsOwned | cmd/tracing/daemon.go:285-341 | No step of a receiver duplicates or loses a buffer |
| Ownership.ProcessorKeepsOwned | pkg/processor/processor.go:167-173 | No step of the processor duplicates or loses a buffer |
| Flow.RingHasRoom | pkg/ringbuffer/ringbuffer.go:62-73 | By the pigeonhole principle the ring is shorter than the number of buffers while some receiver is sending |
| Flow.WriteDisturbsNothing | cmd/tracing/daemon.go:261-277 | A read into a buffer changes no queued or batched document and nothing another receiver has parsed |
| Flow.ReceiverExtendsStream | cmd/tracing/daemon.go:310-341 | Only a send lengthens the stream of documents, and by the body of the datagram received |
| Flow.ProcessorKeepsStream | pkg/processor/processor.go:101-178 | The processor passes documents from ring to queue without changing their stream |
| Shutdown.ClosedMeansAllRetired | cmd/tracing/daemon.go:238-244 | In an orderly state without fatal fallback reads a closed ring means every receiver has retired |
| Shutdown.ReceiverKeepsSignals | cmd/tracing/daemon.go:261-309 | Main's count is the number of retired receivers plus that of fatal fallback reads |
| Shutdown.ProcessorKeepsDrained | pkg/processor/processor.go:105-135 | A stage is closed only when the one before it is closed and empty, and pollers leave only a closed, empty queue |
| Accounting.ProcessorKeepsBatching | pkg/processor/processor.go:101-178 | The batch is shorter than batchSize whenever the processor selects, and every batch on the queue has 1 to batchSize documents |
| Accounting.ReceiverKeepsBalanced | cmd/tracing/daemon.go:293-341 | No receiver's step unbalances the ledger |
| Accounting.ProcessorKeepsBalanced | pkg/processor/batchprocessor.go:46-62 | No step of the processor unbalances the ledger |
| Accounting.PollerKeepsBalanced | pkg/processor/batchprocessor.go:64-97 | No step of a poller unbalances the ledger |
| Counters.StepConserves | pkg/telemetry/telemetry.go:119-290 | Every load, add and rotation keeps the sum of a counter right |
| Counters.AdditionsLand | pkg/telemetry/telemetry.go:119-290 | A cell changes by the amounts of the additions to that counter of that record, and by nothing else |
| Counters.SettledRecordsAreFinal | pkg/telemetry/telemetry.go:279-290 | A rotated record that no thread has loaded never changes again |
| Counters.LateAdditionsAreBounded | pkg/telemetry/telemetry.go:279-290 | A rotated record sees no more additions than threads had it loaded, and exactly those that are no longer pending |
| Latency.NothingStaysBatched | pkg/processor/processor.go:101-136 | In every run no segment stays batched longer than the longest delay, and none is sent later |
| Latency.QuickTurns | pkg/processor/processor.go:101-136 | If turns take no time, the longest delay is the timeout, or none if every segment is a batch |
| Latency.StepKeepsTimely | pkg/processor/processor.go:101-188 | Nothing in the batch arrived before the armed timer was set, and the timer is overdue by no more than the turns since |
| Telemetries.ArchiveHoldsRounds | pkg/telemetry/telemetry.go:270-320 | The archive is the records of all rounds from the first on by which a segment had been received |
| Telemetries.AcceptedRoundSendsAll | pkg/telemetry/telemetry.go:322-376 | A round whose requests are all accepted leaves nothing pending, and loses at most one record that was pending before |
| Telemetries.AddingKeeps | pkg/telemetry/telemetry.go:303-320 | Adding a record keeps the archive's promises |
| Telemetries.SendingKeeps | pkg/telemetry/telemetry.go:322-376 | Sending, however it fails, keeps the archive's promises |
| Telemetries.SendingDelivers | pkg/telemetry/telemetry.go:353-376 | What the accepted requests of a round hold is exactly the records that leave the queue |
| Telemetries.CallsDeliver | pkg/telemetry/telemetry.go:353-376 | The records in accepted requests, with those left unsent, are the records to be sent |
| Telemetries.CallsAreRequests | pkg/telemetry/telemetry.go:355-371 | Every request has 10 records, but the last 1 to 10; none follows one that fails, and something is left unsent exactly if the last one failed |
| Telemetries.UnsentIsSuffix | pkg/telemetry/telemetry.go:353-376 | What is left unsent is a suffix of what was to be sent |
| Sizing.CountIsInt64 | pkg/bufferpool/bufferpool.go:109-110 | The float handed back to an integer is always in the range of one |
| Sizing.OverflowingLimit | pkg/bufferpool/bufferpool.go:109 | A limit of 2^43 MB, which overflows: with 64 KB buffers the count is -2^47 |
| Sizing.RoundedUpLimit | pkg/bufferpool/bufferpool.go:110 | A limit that does not overflow, with a size of 3, whose count is rounded up past the limit |
| Sizing.FillingCountIsReturned | pkg/bufferpool/bufferpool.go:102-111 | Without overflow, a count below 2^53 that fills the limit is the one returned |
| Sizing.TiesGoToEven | pkg/bufferpool/bufferpool.go:110 | A quotient halfway between two floats becomes the one with the even significand |
| Sizing.DefaultBufferSize | pkg/bufferpool/bufferpool.go:102-111 | With buffers of 64 KB there are 16 a megabyte, and so at least 48 |
| Sizing.CountWires | cmd/tracing/daemon.go:181-206 | There is a buffer exactly if one fits the limit, and then batch size is at most the number of buffers, and that at most the ring's capacity |
| Sizing.GetPoolBufferCount | pkg/bufferpool/bufferpool.go:102-111 | An error exactly for a size or limit that is not positive |
| Util.OneByteScan | pkg/util/util.go:24-40 | A one-byte separator never panics and splits at its first occurrence |
| Util.SplitReassembles | pkg/util/util.go:24-40 | Header, separator and body make up the text when the separator occurs; otherwise the header is the text; the header has no separator |
| Util.SplitRoundTrip | pkg/util/util.go:24-40 | Splitting undoes the prepending of a separator-free header and the separator |
| BufferPools.GetUndoesReturn | pkg/bufferpool/bufferpool.go:46-77 | Get after an accepted Return yields that buffer and the list as it was |
| BufferPools.ReturningKeepsDistinct | pkg/bufferpool/bufferpool.go:61-77 | However many buffers are handed back, double returns included, the list keeps its prefix, stays distinct and within capacity, and misses a returned buffer only if it is full |
| RingBuffers.ChannelSize | pkg/ringbuffer/ringbuffer.go:62-68 | The capacity is the larger of 250 and the number of buffers |
| Outcomes.Rejections | pkg/processor/batchprocessor.go:96-103 | The unprocessed segments counted as rejected are those up to and including the first without an id |
| Util.SplitHeaderBody | pkg/util/util.go:10-41 | The parts stored are those around the first separator, or the whole text and nothing; a nil argument gives nil; it panics exactly when the scan slices out of range |
| Util.SplitAtByte | pkg/util/util.go:10-41 | With a one-byte separator it stores the header and the body, which alias the text |
| BufferPools.BufferPool.constructor | pkg/bufferpool/bufferpool.go:29-43 | A new pool is full of fresh buffers of the given size and its index agrees with it |
| BufferPools.BufferPool.Get | pkg/bufferpool/bufferpool.go:46-58 | Takes the buffer returned last and drops it from the index, or gives nil |
| BufferPools.BufferPool.Return | pkg/bufferpool/bufferpool.go:61-77 | Lists the buffer on top unless its head is listed or the pool is full, and keeps the index equal to the distinct heads, whoever calls |
| RingBuffers.RingBuffer.constructor | pkg/ringbuffer/ringbuffer.go:41-56 | An empty, open ring of that capacity, for a count other than 0 |
| RingBuffers.RingBuffer.Send | pkg/ringbuffer/ringbuffer.go:71-87 | The segment is queued last; a full ring loses exactly its oldest segment, whose buffer goes back to the pool, and counts it |
| BatchProcessors.SegmentsBatch.constructor | pkg/processor/processor.go:64-71 | An empty, open queue of the given capacity |
| BatchProcessors.SegmentsBatch.Send | pkg/processor/batchprocessor.go:46-62 | The batch is queued last; a full queue loses exactly its oldest batch, whose segments count as spilled over |
| BatchProcessors.SegmentsBatch.PollOnce | pkg/processor/batchprocessor.go:64-121 | The oldest batch is taken; failed, it counts as failed and nothing else; uploaded, it counts as sent, and the unprocessed segments up to the first without an id as rejected; on a closed, empty queue done is signalled |
| Processors.Processor.constructor | pkg/processor/processor.go:62-99 | A processor wired to ring, pool and queue, with its idle timer armed |
| Processors.Processor.CopyOut | pkg/processor/processor.go:168-173 | The copy is the text the segment had before its buffer was handed back, and no other document changes |
| Processors.Processor.CopyAndReturn | pkg/processor/processor.go:167-173 | The documents are the batched texts in order, and every buffer has been handed back in order |
| Processors.Processor.FlushBatch | pkg/processor/processor.go:155-162 | The batch's places are cleared and no others, and the batch is empty |
| Processors.Processor.SendBatchAsync | pkg/processor/processor.go:164-178 | The documents are queued as one batch, the buffers returned, the timer armed and the batch emptied |
| Processors.Processor.ReceiveTraceSegment | pkg/processor/processor.go:138-151 | The segment joins the batch, which is sent exactly if it is full or the pool is empty |
| Processors.Processor.SendIdle | pkg/processor/processor.go:113-120 | When the timer fires, a batch that is not empty is sent, and the timer is armed again |
| Processors.Processor.PollOnce | pkg/processor/processor.go:101-125 | What one turn does on a segment, on the idle timer and on the closed ring; the batch stays below batchSize |
| Processors.Processor.Finish | pkg/processor/processor.go:127-130 | The last batch is sent and the queue closed |
| Daemons.Daemon.constructor | cmd/tracing/daemon.go:183-224 | Pool and ring have the same number of buffers and belong together |
| Daemons.Daemon.Read | cmd/tracing/daemon.go:261-277 | The number of bytes read, 0 after a passing error, -1 and a done signal after a fatal one |
| Daemons.Daemon.Take | cmd/tracing/daemon.go:285-291 | The buffer on top of the pool, or the fallback if there is none |
| Daemons.Daemon.Split | cmd/tracing/daemon.go:310-322 | Header and payload alias the buffer and are the header and body of its text |
| Daemons.Daemon.Receive | cmd/tracing/daemon.go:310-341 | A well-formed datagram is counted and its body sent to the ring uncopied; any other is rejected and its buffer returned |
| Daemons.Daemon.AfterReading | cmd/tracing/daemon.go:293-341 | What follows a read into a pool buffer; only a fatal one retires the receiver |
| Daemons.Daemon.PollOnce | cmd/tracing/daemon.go:284-342 | What one turn does for every read outcome, on a pool buffer and on the fallback: what is received, accepted, rejected and spilled over, who signals and retires, what is on the ring and in the pool |
| Telemetries.Telemetry.constructor | pkg/telemetry/telemetry.go:228-240 | An empty archive and a record of zeros |
| Telemetries.Telemetry.SegmentReceived | pkg/telemetry/telemetry.go:119-123 | Only the received counter grows, modulo 2^32, and telemetry is switched on |
| Telemetries.Telemetry.Add | pkg/telemetry/telemetry.go:303-320 | The queue keeps the newest 30 records; nothing is queued before the first segment |
| Telemetries.Telemetry.CollectAllRecords | pkg/telemetry/telemetry.go:335-351 | All queued records in order, and the queue emptied |
| Telemetries.Telemetry.SendRecords | pkg/telemetry/telemetry.go:353-376 | Exactly the requests are made that Telemetries.Calls gives, and exactly what they leave unsent is returned |
| Telemetries.Telemetry.SendAll | pkg/telemetry/telemetry.go:322-333 | Exactly those requests are made for the queued records, and exactly what they leave unsent is queued again, in order |
| Telemetries.Telemetry.Archive | pkg/telemetry/telemetry.go:279-290 | A record of zeros replaces the current one, which is archived |
| Telemetries.Telemetry.SendArchive | pkg/telemetry/telemetry.go:291 | Sending the archive keeps its promises about every request made so far |
| Telemetries.Telemetry.PushData | pkg/telemetry/telemetry.go:270-301 | A round archives the current record and sends the archive, and keeps the archive's promises |

## Left out

- Header decoding: whether header bytes decode to a valid header is the predicate `Config.valid`, the same for equal bytes.
- The socket, the clock and the backends: what a read delivers, when timers fire and which calls fail are nondeterministic; calls do return.
- Error classification in pkg/telemetry/telemetry.go:82-109: only that an error is evaluated, not which counter it picks.
- The regular expressions and the map of ids in pkg/processor/batchprocessor.go:87-110, which only feed log lines.
- The proxy, connections, signing, configuration files, command line, logging and profiling.
- Which reads are fatal: in `Pipeline` any read may be, and every read of the closed socket is; the source decides by the kind of error.
- Telemetry counter updates in `Pipeline` happen together with a neighbouring step of the same goroutine, and the received count grows with the read; `Counters` takes them apart.
- Records still in the telemetry queue when the daemon quits are lost; `Telemetries` says which are pending, not that they arrive.
- Plain fields shared between goroutines (`postTelemetry`, `currentRecord`, `Empty`) are treated as atomic words.
- Counts of segments are unbounded in `Pipeline` and in the classes; the 64-bit counters of the source could wrap around.
- Loops without end (the receivers', the processor's, the pollers' and the telemetry loop) are methods for one turn; that turns follow one another is in `Pipeline`, `Latency` and `Telemetries.AfterRounds`.
- Channels in the classes are sequences that only one caller at a time uses; the interleavings are in `Pipeline`.
- RingBuffers.RingBuffer.Send: requires an open channel, because a send on a closed one ends the program; `Pipeline` models that panic as the step `SendOnClosed`.
- Daemons.Daemon.PollOnce: requires an open ring when the datagram will be sent, for the same reason.
- BatchProcessors.SegmentsBatch.Send: requires an open channel, which `Guarantees.SendTakesAtMostTwoTries` shows it always finds, and a capacity; without one it would try until a poller happens to be waiting.
- BufferPools.BufferPool.Return: takes buffers whose slice is not empty and never reassigned, as the daemon's are; the address of an empty slice's first byte is a panic in the source.
- Sizing.GetPoolBufferCount: integers are 64 bits wide.
- Latency.NothingStaysBatched: the time a segment waits on the ring before the processor takes it is not counted.
- evaluateBufferMemory (cmd/tracing/daemon.go:345-364): reading the machine's memory; of it only the minimum of 3 MB appears, in `Sizing.DefaultBufferSize`.
