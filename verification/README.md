# Verified models of the audio, configuration and conversion cores

This project models the parts of the daemon whose correctness depends on interleavings, bit-level
arithmetic or several functions agreeing, and proves what they promise. `dafny verify dfyconfig.toml`
checks all of it.

**Sample ring** (`RingIndex`, `AudioRing`, `RingProtocol`, `RingMargin`, `RingProgress`, `RingTso`).
`AudioRing` is the ring as classes over an array: masked index, two-segment copies, one thread at a
time, specified against `log`, the unbounded sequence of all samples ever pushed. `RingProtocol` is
the same code cut at every atomic operation (cell store, cell load, head load, head store), with any
number of readers interleaved in any order. Its main theorem is that a `Ready` peek never mixes old
and new samples; `RingMargin` shows that the quarter-capacity push limit is exactly what this needs;
`RingProgress` says what each status promises about later steps; `RingTso` carries safety over to a
machine with a FIFO store buffer by simulations in both directions.

**Opus path** (`Resampling`, `OpusEngine`, `OpusLoop`, `OpusRuns`, `OpusControl`). The resampler wrapper and the
960-sample framer as classes, then the consumer's pause / resume / lag / reset loop as one more reader of
the interleaved ring. Results: blocks are gapless slices of the stream between resets, packets depend
only on the concatenated input, and exact conditions for no panic, for progress after a pause, a start or a lag,
and for stopping, failing and waiting.

**Microphone arbitrator** (`SlotPolicy`, `Demux`, `Arbitrator`, `ArbitratorLoop`). The pure slot and
source decisions with their guarantees over whole runs, the one-pass demultiplexer on arrays, the
arbitrator state as a class, and one loop iteration on that class proved equal to a function on values
for which the run properties are shown: when a source is given up, which slot is chosen, and what the ring gains.

**Head artifact header** (`Crc32`, `HeadHeader`). The table-driven CRC-32 (section 3.2.9 of IEEE 802.3,
section 8 of RFC 1952) equals bit-at-a-time reflected division; round trip of the header; every burst
of at most 32 bits of damage is rejected, and a 33-bit pattern that is not.

**Configuration transactions** (`ConfigProtocol`, `ConfigSafety`, `ConfigRuns`, `ConfigOutcomes`,
`ConfigTurns`, `ConfigCell`). Any number of threads and cells, cut at every lock operation, disk write,
store and callback, with failures, panics, re-entrant calls and a reload worker: what every run keeps, that
reported outcomes are true, and whole calls made alone; and the same operations as methods of classes,
whose effects are stated on the protocol's cell.

**TFJS conversion** (`TfjsManifest`, `TfjsParser`, `TfjsFaults`, `TfjsHead`, `TfjsStream`, `FloatBytes`). The manifest
parser as loops against folds, an order-free description of exactly what it accepts, and the first fault of
what it refuses; the layout of accepted manifests; the two extraction routes and the streaming shard reader.

**NPY fixtures** (`Npy`), **training-job registry** (`TrainingProtocol`, `TrainingRuns`,
`TrainingReap`, `TrainingShutdown`, `TrainingRegistry`) and **log truncation** (`LogTruncate`). Printer
and parser with their exact round-trip condition; the registry under any interleaving, with what its two
counts mean, and as a class; the longest whole-character prefix.

## Where the code does not do what its comments say

- `modules/audio_io/mic_arbitrator.rs:1118-1137` says that after a failover the next iteration picks a
  fresh candidate. Tear-down clears the active id, so FirstAvailable starts again from the first
  candidate; `ArbitratorLoop.FailoverMovesOnExactly` says when another one is chosen and
  `ArbitratorLoop.FailoverReturnsToFirst` that otherwise none ever is; `ArbitratorLoop.SilentSourceIsReopened`
  is a run in which it happens.
- `modules/common/log_truncate.rs:30-34` says the line is truncated to at most 8192 bytes. The marker comes
  on top, so a truncated line is always longer than that (`LogTruncate.TruncateLogMessage`, last clause).
- `examples/regen_fixtures.rs:324` keeps 16 bits of the header length. From 65 536 bytes on the writer
  succeeds with a file nobody can read (`Npy.RoundTripExactly`, with such a shape in `Npy.OverlongHeader`).
- `modules/training.rs:442-443` says the number reaped is returned. It is the number collected, which is
  larger when another reaper got there first (`TrainingReap.ReapCountExactly`), and right
  when no other reaper overlaps (`TrainingReap.LoneReaperCountsRight`).
- `modules/training.rs:414-415` says every running job is flagged. A job registered during the walk may be
  missed, and one such insertion is enough at any moment (`TrainingShutdown.ShutdownMissesExactly`).
- `modules/converter/source.rs:58-63` offers looser limits to callers. The class cap applied when weights are
  read is always the default one (`TfjsHead.WeightsExactly`, with such a document in
  `TfjsStream.LooserLimitsStillCapped`).
- `modules/converter/source.rs:95-125` and `modules/converter.rs:950-965` report different faults for a
  manifest without a head whose shards also have the wrong length (`TfjsStream.LoadHead`, with
  such an input in `TfjsStream.RoutesReportDifferentFaults`).
- `modules/audio_buffer.rs:616-618` has a lagged reader seek and resume. That needs the wanted samples to exist
  and to stay inside the safe window (`AudioRing.ResyncThenPeek`, `RingProgress.ResyncIsServed`). The Opus loop
  resumes exactly when the smaller of the head and its backlog fits the window
  (`OpusRuns.ResyncProgressExactly`); on rings of 2048 and 4096 samples it can starve
  (`OpusRuns.StarvationIsReachable`).

## Model

| member | source | states |
|---|---|---|
| `RingIndex.MaskIsModulo` | modules/audio_buffer.rs:421-457 | For every power-of-two capacity the bit mask `x & (cap - 1)` that addresses cells is the remainder of `x` modulo the capacity. |
| `RingIndex.SlotsAreDistinct` | modules/audio_buffer.rs:421-457 | Two positions less than one capacity apart never share a cell. |
| `RingIndex.StoreKeepsHolds` | modules/audio_buffer.rs:421-457 | Storing the next sample in its masked cell keeps "the ring holds the last `cap` samples of the log, each at its position modulo `cap`", for a log one longer. |
| `AudioRing.AudioBuffer.constructor` | modules/audio_buffer.rs:233-254 | A new ring of an admitted capacity represents the empty log. |
| `AudioRing.AudioBuffer.TakeWriter` | modules/audio_buffer.rs:303-321 | The first taker gets the only writer; taking it twice is the source's panic. |
| `AudioRing.AudioBuffer.NewReader` | modules/audio_buffer.rs:323-333 | A new reader starts at the live edge. |
| `AudioRing.AudioBuffer.NewReaderAt` | modules/audio_buffer.rs:336-347 | A reader with a backlog starts that far behind the edge, or at the start of a shorter log. |
| `AudioRing.Writer.Push` | modules/audio_buffer.rs:421-457 | The two-segment masked store of any batch within the margin appends exactly that batch to the unbounded log and keeps the ring representing it. |
| `AudioRing.Writer.StoreSegment` | modules/audio_buffer.rs:443-451 | A loop that stores a segment without wrapping extends the log the cells hold by that segment. |
| `AudioRing.Reader.CopyWindow` | modules/audio_buffer.rs:554-567 | The two copy loops fill the buffer with the slice of the log from the tail on. |
| `AudioRing.Writer.Drop` | modules/audio_buffer.rs:460-465 | Dropping the writer frees the writer slot. |
| `AudioRing.Reader.PeekInto` | modules/audio_buffer.rs:511-594 | Ready, Wait or Lagged is decided exactly by head minus tail against the request and the safe window; a Ready peek returns log[tail..tail+n] through the two-segment copy, any other leaves the buffer alone. |
| `AudioRing.Reader.Advance` | modules/audio_buffer.rs:600-614 | Advancing inside the log moves the tail by that much and nothing else. |
| `AudioRing.Reader.SeekLatest` | modules/audio_buffer.rs:620-622 | The tail lands on the newest `n` samples, or at the start of a shorter log. |
| `AudioRing.Reader.Available` | modules/audio_buffer.rs:647-650 | What is available is the part of the log at or after the tail. |
| `AudioRing.ResyncThenPeek` | modules/audio_buffer.rs:616-622 | `seek_latest(m)` followed by `peek_into` of `m` with no push between them returns the newest `m` samples exactly when that many exist, and otherwise waits with the buffer untouched. |
| `RingProtocol.StepInv` | modules/audio_buffer.rs:421-457 | Every atomic step of the writer or a reader keeps: each cell holds the newest stored sample of its residue, at most a quarter of the capacity is stored but unpublished, and every copy in flight is a slice of the stream unless it has fallen behind. |
| `RingProtocol.RunInv` | modules/audio_buffer.rs:421-457 | The invariant holds over every interleaving, and the published stream only grows. |
| `RingProtocol.ReaderUndisturbed` | modules/audio_buffer.rs:511-594 | Whatever the writer publishes, the samples a reader has copied stay the samples of its window. |
| `RingProtocol.ReadyIsNeverMixed` | modules/audio_buffer.rs:511-594 | In no interleaving of one writer and any number of readers does a peek return Ready with anything but stream[tail..tail+n]. |
| `RingMargin.LongPushBreaksReady` | modules/audio_buffer.rs:275-288 | With any push limit above a quarter of the capacity there is an interleaving in which a Ready peek returns a wrong sample. |
| `RingMargin.MarginIsExact` | modules/audio_buffer.rs:275-288 | Ready peeks are sound in every interleaving if and only if pushes are limited to a quarter of the capacity. |
| `RingProgress.PeekDecides` | modules/audio_buffer.rs:511-555 | From one head load a peek of `n` is ready for n = 0, panics above three quarters of the capacity, waits when fewer than `n` are published, lags when the head is further ahead than that window, and otherwise starts to copy. |
| `RingProgress.RecheckDecides` | modules/audio_buffer.rs:575-594 | After the copy the peek is Ready exactly while the head is within three quarters of the capacity of the tail, and otherwise lags by the distance. |
| `RingProgress.WriterHandsOver` | modules/audio_buffer.rs:303-321 | The writer slot can be taken exactly while no writer exists, and dropping the writer frees it. |
| `RingProgress.LaggedIsSticky` | modules/audio_buffer.rs:504-508 | After a Lagged report, every later admissible peek at the same tail reports Lagged by at least as much. |
| `RingProgress.NoWaitBelowSeenHead` | modules/audio_buffer.rs:541-555 | Once head has reached tail plus `n`, no later peek of `n` at that tail waits. |
| `RingProgress.ResyncIsServed` | modules/audio_buffer.rs:616-622 | After `seek_latest(m)`, or for a new reader made `m` behind the head, a peek of `m` that rechecks while at most the rest of the safe window has been published is Ready with the samples that were newest at the start. |
| `RingProgress.SeekFromTheStart` | modules/audio_buffer.rs:336-347 | A seek or a new reader that asks for more than is published starts at the first sample. |
| `RingProgress.AdvanceAfterReady` | modules/audio_buffer.rs:600-614 | After a Ready peek of `n`, advancing by any amount up to `n` never trips the assertion, in any continuation. |
| `RingTso.Simulated` | modules/audio_buffer.rs:421-457 | Every run in which the writer's stores drain through a FIFO store buffer is matched, memory for memory, by a sequentially consistent run. |
| `RingTso.SimulatedStep` | modules/audio_buffer.rs:421-457 | Each buffered step is matched by extending the sequentially consistent run by at most two steps. |
| `RingTso.BufferDrains` | modules/audio_buffer.rs:421-457 | In every reachable state a waiting store can drain: the buffer is never stuck. |
| `RingTso.ReadyIsNeverMixedUnderTso` | modules/audio_buffer.rs:511-594 | Under x86-TSO, too, a Ready peek returns exactly the samples pushed at the positions it asked for. |
| `RingTso.EveryRunIsPossibleUnderTso` | modules/audio_buffer.rs:421-457 | The store buffer takes no behaviour away: every sequentially consistent run of a kept writer is matched by a buffered run that ends drained with the same memory and readers. |
| `Resampling.FeedTwice` | modules/dsp/resample.rs:214-262 | Feeding two inputs one after the other leaves the resampler exactly as feeding their concatenation: how input is cut up does not matter. |
| `Resampling.PumpCarriesOutput` | modules/dsp/resample.rs:214-262 | Output waiting to be drained never influences what is produced next. |
| `Resampling.FeedChunk` | modules/dsp/resample.rs:214-262 | With nothing accumulated, a full chunk goes to the filter as it is and its output is appended. |
| `Resampling.FeedLess` | modules/dsp/resample.rs:214-262 | Input that does not complete a chunk is only accumulated. |
| `Resampling.FeedDrained` | modules/dsp/resample.rs:214-274 | Feeding a drained resampler yields exactly the output that the longer input adds. |
| `Resampling.Streaming.Process` | modules/dsp/resample.rs:214-262 | The accumulate-and-pump loop moves the resampler to the state of its functional description. |
| `Resampling.Streaming.DrainOutput` | modules/dsp/resample.rs:269-274 | Draining returns all output and leaves the history alone. |
| `Resampling.Streaming.ResetAfterDiscontinuity` | modules/dsp/resample.rs:330-340 | A reset leaves a fresh resampler. |
| `OpusEngine.FramesConserve` | modules/opus_stream.rs:296-316 | There are as many frames as 960 goes into the length, the frames followed by the rest are the whole input, and the rest is shorter than a frame. |
| `OpusEngine.FramesAreUnique` | modules/opus_stream.rs:296-316 | Any list of 960-sample frames and short rest that concatenate to the input is the framer's. |
| `OpusEngine.OneMoreFrame` | modules/opus_stream.rs:296-316 | Encoding one more frame extends the packets by one, or fails exactly when the codec does. |
| `OpusEngine.Engine.constructor` | modules/opus_stream.rs:236-256 | A new engine has been fed nothing and has emitted nothing. |
| `OpusEngine.Engine.StateIsDetermined` | modules/opus_stream.rs:212-224 | A valid engine's frames, leftover samples, encoder and packets are determined by the concatenation of its inputs. |
| `OpusEngine.Engine.ProcessPcm` | modules/opus_stream.rs:268-317 | A block with a non-finite sample is rejected with its first bad index and changes nothing; otherwise frames plus leftover equal the resampled total, and on success all packets since the reset are those of the concatenated input. |
| `OpusEngine.Engine.ResetAfterDiscontinuity` | modules/opus_stream.rs:323-330 | A reset forgets everything fed, also when the codec's own reset fails. |
| `OpusLoop.StepInv` | modules/opus_stream.rs:410-512 | Every step of the loop, the writer or another reader keeps the loop's invariant. |
| `OpusRuns.EveryRunFeedsTheStream` | modules/opus_stream.rs:448-512 | In every interleaved run each block fed to the engine is stream[p..p+1024], and successive blocks are adjacent unless the engine was rebuilt or reset between them. |
| `OpusRuns.NeverPanicsExactly` | modules/opus_stream.rs:448-512 | No assertion of `peek_into` or `advance` can fire in any run if and only if 1024 samples fit the ring's safe window. |
| `OpusRuns.EpochIsOneSlice` | modules/opus_stream.rs:410-512 | Everything fed to one engine between resets is one gapless slice of the stream. |
| `OpusRuns.PacketsOfOneSlice` | modules/opus_stream.rs:268-317 | A fresh engine given an epoch's blocks one call each emits, over all calls, what a single call on the stream slice they cover would emit; it stops early only at a non-finite sample or a failing encoder. |
| `OpusRuns.StarvedForever` | modules/opus_stream.rs:473-492 | A loop whose resync leaves more between tail and head than the safe window only ever lags again; no block is fed in any continuation. |
| `OpusRuns.ResyncFeedsABlock` | modules/opus_stream.rs:410-512 | Paused, starting, resyncing or recovering from lag, with a block published and the backlog inside the window, the loop running alone feeds a block of the new epoch that starts at the oldest sample of the backlog. |
| `OpusRuns.BlockCanFollow` | modules/opus_stream.rs:473-512 | With less than a block published the writer can bring the head into reach first, whatever it was doing. |
| `OpusRuns.ResyncProgressExactly` | modules/opus_stream.rs:410-512 | From every reachable state in which the loop is paused, starting, resyncing or recovering from lag, at any head, another block can be fed in some continuation if and only if the smaller of head and the 4096-sample backlog fits the safe window. |
| `OpusRuns.StarvationIsReachable` | modules/opus_stream.rs:473-492 | On every ring whose safe window holds a block but not the backlog, a run from the empty ring leads to the state from which no block is ever fed again. |
| `OpusRuns.SmallRingsStarve` | modules/audio_buffer.rs:233-254 | Rings of 2048 and of 4096 samples are such rings. |
| `OpusControl.StopsExactly` | modules/opus_stream.rs:410-481 | Over every run the loop has stopped if and only if a check saw shutdown or a wake-up was for shutdown or a closed channel. |
| `OpusControl.FailsExactly` | modules/opus_stream.rs:437-510 | Over every run the loop has failed if and only if building, resetting or feeding the engine did. |
| `OpusControl.EpochsCountEngines` | modules/opus_stream.rs:437-495 | The epoch is the number of engines built and reset. |
| `OpusControl.PausesWithoutSubscribers` | modules/opus_stream.rs:421-453 | From a check that sees no subscriber until one that sees one, in any interleaving, no engine is built or reset and no block is fed. |
| `OpusControl.PauseEnds` | modules/opus_stream.rs:421-512 | From every reachable pause a count change and a check that sees a subscriber lead to a new epoch; running on alone the loop feeds the oldest block of the 4096-sample backlog, provided 1024 samples are published and the backlog fits the window. |
| `OpusControl.CheckedBeforePeek` | modules/opus_stream.rs:446-484 | After a count change, a peek, a feed, a seek or an engine event the loop never peeks before a check has seen neither shutdown nor an empty audience. |
| `OpusControl.NapsExactly` | modules/opus_stream.rs:408-484 | With an audience the loop sleeps before its next peek if and only if its latest peek waited, or none was made yet. |
| `OpusControl.LagIsRecovered` | modules/opus_stream.rs:485-496 | After a lagged peek the loop's next two events are the seek and the reset of its engine, whatever the others do in between. |
| `SlotPolicy.ResolveDesired` | modules/audio_io/mic_arbitrator.rs:446-463 | FirstAvailable keeps a listed active microphone and otherwise wants the first candidate; a fixed choice wants its own candidate or nothing. |
| `SlotPolicy.Loudest` | modules/audio_io/mic_arbitrator.rs:659-664 | The loudest slot, the last one among equals. |
| `SlotPolicy.FixedChannelIsChosen` | modules/audio_io/mic_arbitrator.rs:654-658 | A fixed channel that is listed is chosen at its first place in the list, whatever the levels, the slot in use and the dwell time. |
| `SlotPolicy.LevelChoiceExactly` | modules/audio_io/mic_arbitrator.rs:659-685 | Both ways: from any state a choice by level takes the loudest slot when nothing was chosen, or when it is another one, beats the old one by the hysteresis factor and the dwell is over; in every other case slot and switch time stay. |
| `SlotPolicy.LastSwitchIsLatestChange` | modules/audio_io/mic_arbitrator.rs:741-757 | Over every run from boot the stored switch time is that of the latest change of slot. |
| `SlotPolicy.LevelSwitchesExactly` | modules/audio_io/mic_arbitrator.rs:641-685 | The list of changes decided by level that the rate bounds count is exact, ascending and without repetition. |
| `SlotPolicy.LevelSwitchRules` | modules/audio_io/mic_arbitrator.rs:641-685 | Over every run, each change decided by level goes to a slot of maximal level that beats the old one by the hysteresis factor, at least `dwell` after every earlier change. |
| `SlotPolicy.LevelSwitchExactly` | modules/audio_io/mic_arbitrator.rs:659-685 | Over every run, a period decided by level moves to the loudest slot if and only if that is another one, beats the old one by the hysteresis factor, and at least `dwell` has passed since every earlier change. |
| `SlotPolicy.SwitchesAreSpaced` | modules/audio_io/mic_arbitrator.rs:671-680 | The k-th and m-th change by level are at least m - k dwells apart. |
| `SlotPolicy.SwitchRateIsBounded` | modules/audio_io/mic_arbitrator.rs:671-680 | Any span T of time holds at most T / dwell + 1 changes by level. |
| `SlotPolicy.ConstantLevelsSettle` | modules/audio_io/mic_arbitrator.rs:641-685 | From any state, while levels stay the same a choice by level changes slot at most once. |
| `Demux.DemuxedSlot` | modules/audio_io/mic_arbitrator.rs:593-610 | After the slot-major pass slot `i` starts with its own cleaned channel and the stale rest of its stride is untouched. |
| `Demux.FrameInBounds` | modules/audio_io/mic_arbitrator.rs:598-604 | The index of a whitelisted channel in any frame is inside the block. |
| `Demux.SinglePassDemuxAndRms` | modules/audio_io/mic_arbitrator.rs:580-611 | After the nested loops frame `f` of slot `i` is sample f * n + whitelist[i] of the block where that is finite and 0 where it is not, the rest of each stride is as it was, and each slot has the sum of squares of its cleaned channel. |
| `Demux.DemuxSlot` | modules/audio_io/mic_arbitrator.rs:593-610 | The inner loop writes the samples of one channel, non-finite ones as 0, into one window, leaves the rest of the buffer alone and returns their energy. |
| `Demux.EnergyAddsUp` | modules/audio_io/mic_arbitrator.rs:597-609 | The energy of one sample is its square, and of two stretches the sum of theirs. |
| `Samples.FiniteExactly` | modules/audio_io/mic_arbitrator.rs:605 | The patterns that do not count as numbers are exactly 0x7F800000 to 0x7FFFFFFF and 0xFF800000 to 0xFFFFFFFF. |
| `Arbitrator.LevelIsRootMeanSquare` | modules/audio_io/mic_arbitrator.rs:729-739 | With an exact square root, the square of a block level times the number of frames is the energy of the slot's samples. |
| `Arbitrator.SmoothedApproaches` | modules/audio_io/mic_arbitrator.rs:736-739 | Smoothing leaves the share 1 - alpha of the distance between a level and its block's level. |
| `Arbitrator.EmaStaysInRange` | modules/audio_io/mic_arbitrator.rs:736-739 | Over the reals a smoothed level stays between zero and the largest value that went into it. |
| `Arbitrator.AlphaForFrames` | modules/audio_io/mic_arbitrator.rs:617-633 | The weight cached at boot and the recomputed one are the same function of the frames read, and lie between zero and one. |
| `Arbitrator.PushChunked` | modules/audio_io/mic_arbitrator.rs:833-839 | A batch of any length pushed in chunks appends exactly that batch to the ring's log. |
| `Arbitrator.FeedSlots` | modules/audio_io/mic_arbitrator.rs:814-843 | Every slot's resampler is fed and drained or reset, and the ring gains exactly the active slot's output. |
| `Arbitrator.ArbitratorState.Boot` | modules/audio_io/mic_arbitrator.rs:373-413 | Opening a source establishes the invariant: per-slot lists sized to the whitelist, resamplers all present or all absent, silence, nothing selected. |
| `Arbitrator.ArbitratorState.TearDown` | modules/audio_io/mic_arbitrator.rs:419-435 | Dropping the source keeps the invariant and empties everything but the scratch buffers. |
| `Arbitrator.ArbitratorState.UpdateLevels` | modules/audio_io/mic_arbitrator.rs:729-739 | Each level becomes the weighted mean of its block level and itself, never above the highest block level since boot. |
| `Arbitrator.ArbitratorState.ResetPerChannelFir` | modules/audio_io/mic_arbitrator.rs:529-533 | After a recovered read error resamplers restart while levels and the choice of slot stay. |
| `Arbitrator.ArbitratorState.ProcessPeriod` | modules/audio_io/mic_arbitrator.rs:691-846 | One period indexes only inside its buffers; a fixed listed channel is the one chosen; at 44 100 Hz the ring gains exactly the chosen channel's own samples of the block, non-finite ones as 0; levels, choice, resamplers and the ring's gain at other rates are the functions of the block for which the laws of the loop are proved. |
| `ArbitratorLoop.FirstOpen` | modules/audio_io/mic_arbitrator.rs:468-481 | The first candidate from a position on that opens, or none when none does. |
| `ArbitratorLoop.SelectionIsExact` | modules/audio_io/mic_arbitrator.rs:1052-1116 | An iteration keeps a listed active source; otherwise FirstAvailable ends with the first candidate that opens, a fixed choice with its own candidate or nothing. |
| `ArbitratorLoop.SelectSource` | modules/audio_io/mic_arbitrator.rs:1052-1116 | The tear-down and open code does what the selection function says. |
| `ArbitratorLoop.RunOnce` | modules/audio_io/mic_arbitrator.rs:1043-1226 | One loop iteration moves the arbitrator and the ring exactly as the iteration function says, for every settings snapshot, open result, read outcome and clock. |
| `ArbitratorLoop.IterationExactly` | modules/audio_io/mic_arbitrator.rs:1117-1223 | An iteration loses the selected source to the failover timer under FirstAvailable, to the end of its stream or to an error it does not recover from, and to nothing else; only a read with frames moves the timer, the levels, the choice and the ring; a recovered error restarts the resamplers. |
| `ArbitratorLoop.BootedIsSilent` | modules/audio_io/mic_arbitrator.rs:373-413 | A freshly opened source has zero levels, no chosen slot and, unless it runs at 44 100 Hz, a new resampler in every slot. |
| `ArbitratorLoop.TimerFollowsReads` | modules/audio_io/mic_arbitrator.rs:1223 | Over every run that keeps one source, the failover timer counts from the latest read that delivered frames. |
| `ArbitratorLoop.FailoverExactly` | modules/audio_io/mic_arbitrator.rs:1122-1124 | From the opening of a source, while it is kept, an iteration that still wants it gives it up if and only if the policy is FirstAvailable and more than `failoverAfter` has passed since the latest read that delivered frames, or since the opening before the first one. |
| `ArbitratorLoop.PromptSourceIsKept` | modules/audio_io/mic_arbitrator.rs:1117-1135 | A listed source that neither ends nor fails and always delivers within `failoverAfter` of the next check is never given up. |
| `ArbitratorLoop.PeriodExactly` | modules/audio_io/mic_arbitrator.rs:788-846 | The ring gains the chosen slot's samples, as they are at 44 100 Hz and through that slot's resampler otherwise; every other resampler is fed its own channel, or starts again while the channel is fixed. |
| `ArbitratorLoop.LevelsFollowEnergy` | modules/audio_io/mic_arbitrator.rs:724-739 | Each level moves towards the root of the mean energy of what its slot got, by the weight of this read's own length. |
| `ArbitratorLoop.ResamplersHearEverything` | modules/audio_io/mic_arbitrator.rs:814-843 | Over every run that keeps the source, a slot's resampler that nothing interrupts is where one fed all samples of its channel, once and in order, would be. |
| `ArbitratorLoop.PinnedChannelIsRecorded` | modules/audio_io/mic_arbitrator.rs:654-846 | While a fixed channel is listed, a run adds to the ring exactly what one resampler fed that channel alone would add, and at 44 100 Hz the channel itself. |
| `ArbitratorLoop.FailoverMovesOnExactly` | modules/audio_io/mic_arbitrator.rs:1118-1137 | After an iteration that fails over, the next one runs the failed microphone again if and only if that is the first candidate that opens. |
| `ArbitratorLoop.FailoverReturnsToFirst` | modules/audio_io/mic_arbitrator.rs:1118-1137 | While the first candidate opens, no run under FirstAvailable ever reaches a second one, however long the first stays silent. |
| `ArbitratorLoop.SilentSourceIsReopened` | modules/audio_io/mic_arbitrator.rs:1118-1137 | For every source there is a run in which it boots, stays silent, is failed over, and is booted again. |
| `ArbitratorLoop.ChoiceFollowsPolicy` | modules/audio_io/mic_arbitrator.rs:741-773 | While one source runs, the loop's choice of slot is the slot policy's over the periods processed, so the spacing and rate bounds hold of the loop. |
| `Crc32.RegisterIsInjective` | modules/common/head_header.rs:236-242 | For any message the checksum register is a one-to-one function of its start value. |
| `Crc32.BurstChangesRegister` | modules/common/head_header.rs:236-242 | Two inputs that differ only inside 32 consecutive bits, at any position and alignment, leave different registers. |
| `Crc32.ByteEnters` | modules/common/head_header.rs:236-242 | One table lookup per byte is eight one-bit steps of the definition. |
| `Crc32.BuildTable` | modules/common/head_header.rs:214-234 | The nested loops produce, for each index, eight reflected division steps by 0xEDB88320. |
| `Crc32.Crc32Ieee` | modules/common/head_header.rs:236-242 | For every byte string the table-driven checksum equals bit-at-a-time reflected division. |
| `Crc32.CheckValue` | modules/common/head_header.rs:210-242 | The checksum of "123456789" is 0xCBF43926, the check value catalogued for this CRC. |
| `HeadHeader.SerializeHeader` | modules/common/head_header.rs:101-125 | The in-place writer produces the 32-byte layout with its checksum. |
| `HeadHeader.LayoutExactly` | modules/common/head_header.rs:101-125 | The written header is "ACSTHEAD", version 1, feature_dim, num_classes, four zero bytes, payload_len and the checksum of the first 28 bytes, each word with its least significant byte first. |
| `HeadHeader.ParseExactly` | modules/common/head_header.rs:136-171 | For every byte string: shorter than 32 bytes, another magic, a version above 1, a checksum that is not that of the first 28 bytes, in this order, and otherwise the four words at their places. |
| `HeadHeader.RoundTrip` | modules/common/head_header.rs:136-171 | Every serialized header parses back to the same fields. |
| `HeadHeader.WriteWithPayload` | modules/common/head_header.rs:183-207 | A payload longer than 32 bits of length can say is an error and nothing is written; otherwise success means header and payload are all there and parse back, and a sink that fails on the way holds exactly a prefix of them. |
| `HeadHeader.ChecksumIsResidue` | modules/common/head_header.rs:136-171 | A header's checksum matches if and only if the register over all 32 bytes ends at 0xDEBB20E3. |
| `HeadHeader.BurstIsRejected` | modules/common/head_header.rs:136-171 | Any 32-byte string that differs from a serialized header only inside 32 consecutive bits is rejected. |
| `HeadHeader.FourByteDamageIsRejected` | modules/common/head_header.rs:136-171 | Damage confined to any four consecutive bytes, checksum bytes included, is rejected. |
| `HeadHeader.BurstBoundIsTight` | modules/common/head_header.rs:136-171 | A 33-bit error pattern exists that the parser accepts with other fields. |
| `ConfigSafety.StepInv` | modules/config.rs:381-425 | Every step of any thread keeps the protocol's invariant. |
| `ConfigSafety.RunInv` | modules/config.rs:381-425 | The invariant holds over every interleaving from boot. |
| `ConfigRuns.NoLostUpdate` | modules/config.rs:381-425 | The snapshot is the fold of the committed edits in lock order, and a committed edit is never dropped later. |
| `ConfigRuns.FreeLockMeansAgreement` | modules/config.rs:686-723 | Whenever a cell's lock is free, disk and memory agree, and so does the runtime copy as long as no after-hook panicked. |
| `ConfigRuns.CrashSafe` | modules/config.rs:406-420 | A crash at any step leaves on disk a valid configuration: the last committed one or the one the lock holder is committing. |
| `ConfigRuns.ReloadNeverFires` | modules/config.rs:528-636 | Without outside edits the file watcher never replaces the snapshot. |
| `ConfigRuns.WaitersHoldNothing` | modules/config.rs:386-402 | With any number of cells and threads, nobody waits for a mutate lock while holding one. |
| `ConfigRuns.NoDeadlock` | modules/config.rs:734-754 | As long as some thread is inside a call, some thread inside a call can take a step. |
| `ConfigRuns.FlagTracksTheCall` | modules/config.rs:661-684 | A thread's flag is up exactly while it is inside a call: success, error, rollback and panic all take it down. |
| `ConfigRuns.ReentryIsRejected` | modules/config.rs:386-402 | A nested call is rejected, changes nothing else and leaves the flag up. |
| `ConfigTurns.MutateThenCommits` | modules/config.rs:381-425 | From every reachable state with the thread outside any call and the lock free, a valid mutation run alone commits exactly its mutator on disk, in memory and in the runtime copy, and changes nothing else. |
| `ConfigTurns.GuardCommits` | modules/config.rs:661-754 | From the same states a guard that makes any list of edits and commits a valid result commits exactly those edits, in order, everywhere. |
| `ConfigTurns.GuardLeavesNothing` | modules/config.rs:661-754 | A guard that rolls back, panics or fails validation after any edits changes nothing but the thread's last outcome. |
| `ConfigTurns.ReloadExactly` | modules/config/watcher.rs:76-190 | A reload that runs alone, whatever the file holds, makes the snapshot the file and counts one exactly when the file can be read, is valid, differs from the snapshot and is accepted; otherwise the cell stays as it was. |
| `ConfigOutcomes.ReportIsTrue` | modules/config.rs:381-425 | Over every run a call that is about to return has swapped a new configuration in if and only if it reports a commit, or an unwinding that began in its after-hook. |
| `ConfigOutcomes.OutcomeHasItsCause` | modules/config.rs:381-425 | Every outcome was settled by its own event of the same call: a hook that ran, a draft that is not valid, a write that failed, a rollback or a panic. |
| `ConfigCell.ConfigCell.constructor` | modules/config.rs:277-300 | A cell loaded from a file that holds a valid configuration agrees with that file. |
| `ConfigCell.ConfigCell.Swap` | modules/config.rs:416-424 | Swapping the snapshot and running the hook commits the edits and keeps the history the snapshot is the fold of. |
| `ConfigCell.ConfigCell.MutateThen` | modules/config.rs:381-425 | The outcome is decided by re-entrancy, validity and the write in that order; an error changes nothing, a success commits one edit everywhere. |
| `ConfigCell.ConfigCell.OpenMutation` | modules/config.rs:734-758 | A guard is opened on a clone unless the thread already has one; nothing shared changes. |
| `ConfigCell.CellGuard.Update` | modules/config.rs:687-691 | An update through the guard changes only its clone. |
| `ConfigCell.CellGuard.Commit` | modules/config.rs:693-716 | All of the guard's edits are committed everywhere or none anywhere, and lock and flag are released on every path. |
| `ConfigCell.CellGuard.Rollback` | modules/config.rs:718-722 | Rolling back releases lock and flag and leaves the cell as it was. |
| `TfjsManifest.FactorsTaken` | modules/converter.rs:802-810 | Checking every partial product for overflow is checking the whole product, when no factor is zero. |
| `TfjsManifest.GroupsTaken` | modules/converter.rs:708-858 | Taking groups one by one succeeds exactly when all paths, shapes and totals are acceptable together, and collects exactly their entries and paths. |
| `TfjsManifest.AcceptedExactly` | modules/converter.rs:668-872 | The parser accepts exactly the documents that meet an order-free condition, and returns what they describe. |
| `TfjsManifest.AcceptedIsLaid` | modules/converter.rs:668-872 | An accepted manifest's entries tile the declared payload in order, each four times its shape product with no zero dimension, inside the address range; shards are within the cap and safe. |
| `TfjsManifest.EntryInBounds` | modules/converter.rs:954-998 | Every entry's range lies inside a blob of the declared length. |
| `TfjsManifest.EveryByteHasOneEntry` | modules/converter.rs:846-857 | Every byte of the declared payload belongs to exactly one entry. |
| `TfjsFaults.RefusedForFirstFault` | modules/converter.rs:668-887 | A refused manifest is refused for its first fault in document order, everything before it being good, and the error says truly what is wrong there. |
| `TfjsFaults.DefaultCaps` | modules/converter.rs:668-887 | With the default limits a well-formed document is taken if and only if it has at most 1 048 576 bytes and 64 shards, and every tensor at most 83 886 080 bytes, no zero dimension and at most 10 000 classes. |
| `TfjsParser.ReadShape` | modules/converter.rs:763-786 | The dimension loop is the fold it is specified by, with its errors in order. |
| `TfjsParser.CountElements` | modules/converter.rs:801-807 | The overflow-checked product loop is the fold it is specified by. |
| `TfjsParser.ReadPaths` | modules/converter.rs:709-737 | The shard path loop is the fold it is specified by. |
| `TfjsParser.ReadWeight` | modules/converter.rs:745-857 | A weight is taken if and only if it is a named float tensor whose shape is within the limits and the running offset stays in range, and then becomes one entry at that offset; otherwise the first failing check is reported. |
| `TfjsParser.ReadWeights` | modules/converter.rs:745-858 | The weight loop is the fold it is specified by. |
| `TfjsParser.ParseWeightsManifest` | modules/converter.rs:668-872 | The whole nest of loops returns what the parser function returns, success or first error, and so accepts exactly the acceptable documents. |
| `TfjsHead.FindNamed` | modules/converter.rs:897-904 | The first entry whose name ends in a suffix. |
| `TfjsHead.PickedByName` | modules/converter.rs:897-908 | When some names end in NewHeadDense/kernel and some in NewHeadDense/bias, kernel and bias are the first entries that carry them. |
| `TfjsHead.PickedByShape` | modules/converter.rs:909-938 | Without both canonical names a head is found if and only if exactly one kernel shape and exactly one matching bias shape occur. |
| `TfjsHead.KernelsMiscounted` | modules/converter.rs:914-926 | Without both canonical names and a unique kernel shape, the error gives the number of entries of shape [2000, N]. |
| `TfjsHead.BiasesMiscounted` | modules/converter.rs:927-936 | With a unique kernel but no unique bias shape, the error gives the number of entries of that shape. |
| `TfjsHead.ReadF32AtChecked` | modules/converter.rs:1041-1063 | The decoding loop returns the decoded slice, or the first non-finite weight with its index. |
| `TfjsHead.RangesAgreeWithBlob` | modules/converter.rs:1071-1157 | On the slices of a picked pair the byte-range route returns the same weights or the same error as the blob route, and its own caps, overflow and length checks never fire, whatever limits the manifest was parsed with. |
| `TfjsHead.RangesExactly` | modules/converter.rs:1071-1157 | On any two byte strings the byte-range route yields weights if and only if the shapes pair up for 1 to 10 000 classes, both strings have the length their shape asks for and every weight is finite; another length is reported with what was wanted. |
| `TfjsHead.WeightsExactly` | modules/converter.rs:970-1024 | Weights are produced if and only if the shapes pair up, the class count is between 1 and 10 000 and all weights are finite; limits looser than the defaults never let a larger head through. |
| `TfjsHead.FaultsAreTrue` | modules/converter.rs:968-1063 | A refused pair is refused for the first of its faults, which the error names truly: a kernel shape, a bias shape, a class count outside 1 to 10 000, or the first non-finite weight of the kernel and then of the bias. |
| `TfjsHead.NamedHeadIsExtracted` | modules/converter.rs:950-1024 | A head under the canonical names with shapes [2000, n] and [n], n from 1 to 10 000, is loaded if and only if its weights are finite, and the result is then the decoded bytes of those two entries. |
| `TfjsStream.CopyOverlap` | modules/converter/source.rs:188-201 | Copying a shard's overlap fills in exactly the entry's bytes that the shard carries. |
| `TfjsStream.ReadHeadBytesStreaming` | modules/converter/source.rs:152-215 | Wherever shard boundaries fall, the two ranges are the slices of the concatenated shards; a wrong total is the declared length error. |
| `TfjsStream.LoadHead` | modules/converter/source.rs:95-125 | The streaming route is determined by the concatenation of the shards, of any total length, and gives the answer of the whole-blob route if and only if the head can be located or the blob has the declared length; a head under the canonical names with finite weights is loaded as the decoded bytes of its two entries. |
| `TfjsStream.SumIsDeclared` | modules/converter/source.rs:159 | The sum of entry lengths is where the last entry ends. |
| `TfjsStream.LooserLimitsStillCapped` | modules/converter/source.rs:58-63 | Under limits that admit 20 000 classes a document with 10 001 is parsed, and its extraction is refused by the default cap for every blob of the declared length. |
| `TfjsStream.RoutesReportDifferentFaults` | modules/converter/source.rs:95-125 | An accepted manifest without a head and an empty blob on which the streaming route reports the missing head and the whole-blob route the length. |
| `FloatBytes.DecodeEncoded` | examples/regen_fixtures.rs:325-327 | Samples written as little-endian bytes are read back bit for bit. |
| `FloatBytes.ToBytes` | examples/regen_fixtures.rs:325-327 | The four bytes of a sample add up to it with weights 1, 256, 65 536 and 16 777 216. |
| `Npy.DecimalRoundTrip` | examples/regen_fixtures.rs:309 | A printed number has its own value. |
| `Npy.ShapeRoundTrip` | examples/regen_fixtures.rs:286-294 | Splitting, trimming and parsing a printed shape returns the shape, for every shape. |
| `Npy.DigitsAreDecimal` | examples/regen_fixtures.rs:309 | Digits have their decimal values, and numbers such as 1024 and 90573 are printed as such. |
| `Npy.NumbersExactly` | examples/regen_fixtures.rs:291 | A string reads as a number if and only if it is an optional plus sign and digits whose value is in range. |
| `Npy.FieldsExactly` | examples/regen_fixtures.rs:287-288 | Splitting at commas loses nothing but the commas and leaves none. |
| `Npy.TrimExactly` | examples/regen_fixtures.rs:289 | Trimming takes all white space off both ends and nothing else. |
| `Npy.FormatExactly` | examples/regen_fixtures.rs:301-330 | The file is the magic bytes, version 1.0, the low 16 bits of the header's length with the low byte first, the dictionary with the printed shape, fewer than 64 spaces and a newline up to a multiple of 64, and the samples. |
| `Npy.EveryVersionReads` | examples/regen_fixtures.rs:257-297 | A file of version 1, 2 or 3 with a header of this writer reads as its shape and as many of the samples that follow as the shape asks for; up to three loose bytes at the end are ignored. |
| `Npy.ForeignFilesAreRefused` | examples/regen_fixtures.rs:264-283 | Without the magic bytes, or with a version other than 1, 2 or 3, nothing is read. |
| `Npy.PadHeader` | examples/regen_fixtures.rs:312-315 | The padding loop stops at the first header length that makes the preamble a multiple of 64. |
| `Npy.CutHeaderIsUnreadable` | examples/regen_fixtures.rs:284-286 | A header cut by a multiple of 64 KiB has lost its closing parenthesis and cannot be read. |
| `Npy.RoundTripExactly` | examples/regen_fixtures.rs:257-330 | Writing then reading returns the same shape and sample bits if and only if the padded header fits 16 bits; otherwise the written file is unreadable. |
| `Npy.OverlongHeader` | examples/regen_fixtures.rs:309-330 | A shape of 22 000 ones with one sample is accepted by the writer and yields an unreadable file. |
| `Npy.WriteNpy` | examples/regen_fixtures.rs:301-330 | The writer refuses exactly a data length that is not the shape product, and otherwise produces the specified file. |
| `Npy.ReadNpy` | examples/regen_fixtures.rs:257-294 | The reader's loops return what the reading function says, never more samples than the shape asks for. |
| `TrainingProtocol.StepInv` | modules/training.rs:283-356 | Every access of any caller or task keeps the registry's invariant, in which the permit is never lost. |
| `TrainingRuns.AtMostOneRuns` | modules/training.rs:283-356 | In every interleaving at most one job runs, the single permit is held for it, and it is in the map. |
| `TrainingRuns.OutcomesAreFinal` | modules/training.rs:327-352 | Terminal states are never left, finish times never change and set cancel flags stay set. |
| `TrainingRuns.ReaperTakesOnlyFinished` | modules/training.rs:445-465 | Over every run a key that a reaper removes is that of a job that is over, and whose finish time lies at least the requested age before the time the reaper read. |
| `TrainingRuns.CountedOnce` | modules/training.rs:419-432 | Over all shutdown calls together each job is counted at most once, and what is counted is stopped. |
| `TrainingRuns.OutcomeWasPublished` | modules/training.rs:327-352 | Over every run a finished job has the outcome that its task published and the time at which it did. |
| `TrainingRuns.FlagsExactly` | modules/training.rs:387-432 | Over every run a job's flag is up if and only if a cancel that found it, or a shutdown walk that saw it running, has set it. |
| `TrainingRuns.CancelExactly` | modules/training.rs:387-391 | A cancel finds exactly the jobs still in the map, sets the flag of the one it found and changes nothing else. |
| `TrainingRuns.ReturnedCountsAddUp` | modules/training.rs:419-432 | Over every run the numbers that shutdown calls have returned, plus those of the walks under way, add up to the number of jobs counted. |
| `TrainingShutdown.ShutdownReachesOlderJobs` | modules/training.rs:413-432 | When a shutdown call returns, a job still running without its flag was not registered when the call began. |
| `TrainingShutdown.WithoutInsertionNothingIsMissed` | modules/training.rs:413-432 | From any reachable state, a shutdown call during which no job is inserted stops every running job. |
| `TrainingShutdown.EachEntryOnce` | modules/training.rs:419-432 | In one shutdown call no job is visited twice, whatever others do. |
| `TrainingShutdown.EveryWalkCanMissAJob` | modules/training.rs:413-432 | Every moment of every reachable walk has a continuation with exactly one insertion in which the call returns with a job running unflagged. |
| `TrainingShutdown.ShutdownMissesExactly` | modules/training.rs:413-432 | From any reachable state, a call can return with an unflagged running job if and only if an insertion may happen while it walks. |
| `TrainingReap.ReapCountExactly` | modules/training.rs:442-465 | Over every run of a reap call the number reported is the number of entries it took out if and only if no other caller removed one of the collected keys between its collecting and its removing it. |
| `TrainingReap.ReaperTakesAllOldJobs` | modules/training.rs:442-465 | When a reap call returns, every job that was in the map and old enough when it began has left the map, in any interleaving. |
| `TrainingReap.LoneReaperCountsRight` | modules/training.rs:442-465 | A reap call that no other reap call overlaps reports exactly what it removed. |
| `TrainingReap.OverlappingReapersOvercount` | modules/training.rs:442-465 | A run in which two overlapping reapers report two removals of one job. |
| `TrainingRegistry.JobRegistry.Spawn` | modules/training.rs:283-356 | A job is admitted exactly when its settings are valid and no job runs; otherwise nothing changes. |
| `TrainingRegistry.JobRegistry.Finish` | modules/training.rs:327-352 | Finishing records the outcome once and frees the permit. |
| `TrainingRegistry.JobRegistry.Cancel` | modules/training.rs:387-391 | Cancel sets the flag of a registered job of the caller's workspace, and says which of the two is wrong otherwise. |
| `TrainingRegistry.JobRegistry.CancelAllForShutdown` | modules/training.rs:419-432 | The walk sets the flag of every running job and touches nothing else, and counts 1 if a running job's flag was off and 0 otherwise. |
| `TrainingRegistry.JobRegistry.ReapFinished` | modules/training.rs:445-465 | The two passes drop exactly the jobs that finished at least the requested age ago, count them, and leave the others as they are. |
| `LogTruncate.BoundaryExactly` | modules/common/log_truncate.rs:41-43 | A byte position is a char boundary if and only if a scalar starts there or the text ends there. |
| `LogTruncate.EncodeExactly` | modules/common/log_truncate.rs:35-48 | The UTF-8 form of a scalar has the length of its range, a first byte that names the length, and payload bits that are the scalar. |
| `LogTruncate.TruncateLogMessage` | modules/common/log_truncate.rs:35-48 | Up to 8192 bytes the text is unchanged; otherwise it becomes its longest prefix of whole scalars within 8192 bytes plus the marker, after at most three snap-down steps; the result fits the cap if and only if the input did. |

## Left out

- Memory orders weaker than x86-TSO: the relaxed cell stores are not allowed to pass the head store.
- Counters are unbounded: `head` and `tail` stay below 2^64, as the source assumes at `modules/audio_buffer.rs:166-167`.
- Panics on caller errors (an oversized push or peek, advancing past head, a second writer) are preconditions of the classes; in the interleaved protocol an oversized peek and an over-advance are a `Panicked` state that is proved unreachable where the source promises it, and an oversized push is not an enabled step.
- Under TSO one writer is taken once and kept; taking and dropping it is modelled in the sequentially consistent protocol only.
- Floating-point rounding: samples are bit patterns when moved and reals when summed; the square root and the smoothing weight are parameters with bounds, and levels are finite.
- The resampling filter and libopus are parameters (a step function on chunks, an encoder that may fail); the resampler's own typed failures, which the source calls invariant breaks, are not modelled.
- Timing anchors, audio sequence numbers, envelopes and broadcast sends of the audio path.
- The loop's state does not carry the engine object: which blocks an engine is given comes from the loop's feeds, what it emits for them from OpusRuns.PacketsOfOneSlice.
- Arbitrator.ArbitratorState.ProcessPeriod: takes a read of at most one period, and at the ring's own rate of at most the push margin, as preconditions, as the source's validation provides.
- ALSA and mock sources, device recovery, thread scheduling, parking and rate-limited logging; a read is an outcome chosen freely by the environment.
- The atomic TOML writer is one step that may fail; `ConfigCell::persist`, which takes no lock, is a boot-only operation; nobody else edits the file.
- A panicking after-hook of a configuration change is modelled in the protocol, where the runtime copy is then not claimed to agree; the classes take a hook that returns.
- The contents of the configuration and its validator: any type and any predicate.
- JSON reading: a manifest document arrives as the fields the parser looks at; a shape dimension is a non-negative integer or not a number at all.
- Which shard paths are safe is a predicate of the platform; reading shards from disk never fails here, and the SHA-256 over them is not computed.
- The text of error messages: errors carry their kind and data, so two locator errors are equal when kind and data are.
- Writing the converted head, its labels and metadata.
- Npy.RoundTripExactly: the shape product is an unbounded number, while the source multiplies in `usize` and panics or wraps on overflow.
- Npy.ReadNpy: what the source panics on is an error; white space other than ASCII is not trimmed, and which bytes are UTF-8 is a predicate that accepts 7-bit text.
- Publishing the NPY file atomically.
- Training itself, progress reports, results and job listings; a task that panics before recording its outcome.
- TrainingRegistry.JobRegistry.CancelAllForShutdown: is the walk with nobody else running; interleaved walks are TrainingProtocol's.
- The map's shard locks: an interleaved walk may visit entries in any order and is only required to visit those present throughout.
- HTTP routes, extractors, sockets, the status sampler, staging, hashing helpers and error-kind tables: they would only add easy members.
