# Realtime data transfer of ntlab_opengl_realtime_visualization, in Dafny

This project models the realtime data-transfer layer of the JUCE module
`ntlab_opengl_realtime_visualization`, together with three small utilities.

The data-transfer layer:

- **`DataCollector`**: the two-block handoff between the audio thread (the producer) and
  the visualisation side (the reader). It uses two `juce::MemoryBlock`s, a write lock, a
  read lock and the `readerShouldSwapBlocks` flag.
- **`SwappableBuffer`**: the multi-channel double buffer with full writes, chunked appends
  and a scoped read pointer.
- **`OscilloscopeDataCollector`**: collects frames of `numSamplesExpected` samples per
  channel. It can start each frame at a rising edge of a trigger channel.
- **`SpectralDataCollector`**: collects FFT-length sample frames and averages the magnitude
  spectra of three of them into one block.
- **`LocalDataSinkAndSource`**: matches collectors to visualisation targets by identifier
  and routes reads and settings through the stored indices.

The utilities:

- `Float2String`: the digit-budget truncation and padding, and the SI-prefix choice.
- `SerializableRange`: a range stored as the text `start|end`.
- `PerformanceAnalyzer`: double-buffered measurement counters.

## How the model is built

- **Locks and calls.** Each public call is one atomic step. A `std::mutex` is a boolean flag.
  `try_lock` tests the flag, and a blocking `lock()` becomes a precondition.
- **Blocks.** A `juce::MemoryBlock` is a `seq<real>` of 4-byte float slots.
  - `DataCollector.expectedBlockSize` counts slots.
  - The collectors keep `expectedNumBytesForMemoryBlock` in bytes and compare it with
    4 · |block|.
  - Every `dataBlockReady (sinkIdx)` call is appended to a `ready` log in the collector
    state.
- **Channel layout** (module `Layout`). Channel `ch` of a region with stride `n` is the
  slice `[ch·n, ch·n + n)`. The copy loops of the collectors and of the buffer are stated
  per channel.
- **State machines.** The collectors are immutable records with pure step functions.
  `CollectorTraces` runs arbitrary call sequences against the handoff protocol.
- **Parameters for what lies outside the model:**
  - the FFT (any length-preserving function) and the complex magnitude;
  - the number of samples the oscilloscope derives from its floating-point time base;
  - the stream formatting in `Float2String` and the base-2 exponent that `frexp` delivers;
  - JUCE's number formatting and parsing in `SerializableRange`;
  - clock readings and the clock rate in `PerformanceAnalyzer`;
  - whether the spectral collector's processing lock is free.

## Where the code and its documentation disagree

The model follows the code in each case below.

- The spectral collector's doc comment (`SpectralDataCollector.h:88-93`) says a push with
  the wrong channel count fills the buffer with zeros. The code ignores such a push
  (`SpectralDataCollector.cpp:69-70`). `Spectral.Push` states that nothing changes.
- The class comment promises a Hamming window. The window object is built in `setFFTOrder`
  but never applied, so the FFT sees the raw samples (`Spectral.Spectrum`).
- The spectral constructor's comment says the identifier is prefixed with "Oscilloscope".
  The code prefixes "SpectralAnalyzer" (`Spectral.Create`).
- `setSampleRate` of the spectral collector applies order 11 whenever the order is 0, and
  so also after an explicit `setFFTOrder (0)`.
- `SwappableBuffer::reallocateChannels` does not reset `readerShouldSwapPtrs`.
  `SwappableBuffer.ReallocateChannels` keeps the flag.
- `DataCollector` releases the producer's write lock from the reader side
  (`finishedReading`). After a deferred finish, the producer calls `try_lock` on a mutex it
  still owns. Both are undefined for `std::mutex`. The model gives the flags their
  intended meaning: the producer holds the block exactly when the write lock is taken and
  no swap is pending.

## Model

Paths are relative to the repository root.

| member | source | states |
|---|---|---|
| DataCollector.Create | ntlab_opengl_realtime_visualization/RealtimeDataTransfer/DataCollector.h:123-139 | a new collector carries its identifier and has two empty blocks, no lock taken, no swap pending, expected size 0 and sink index -1 |
| DataCollector.ResizeMemoryBlock | ntlab_opengl_realtime_visualization/RealtimeDataTransfer/DataCollector.h:55-58 | only the expected size changes; no block, lock or flag is touched |
| DataCollector.StartWriting | ntlab_opengl_realtime_visualization/RealtimeDataTransfer/DataCollector.h:61-68 | the write block is handed out and the write lock taken exactly when the lock was free; otherwise nothing changes |
| DataCollector.FinishedWriting | ntlab_opengl_realtime_visualization/RealtimeDataTransfer/DataCollector.h:74-86 | with the read lock free, the blocks are exchanged, both locks are free and the sink is notified once; during a read, only the deferred-swap flag is set and the write lock stays taken; the two blocks are only permuted, and the block just written is the newest |
| DataCollector.StartReading | ntlab_opengl_realtime_visualization/RealtimeDataTransfer/DataCollector.h:100-104 | takes the read lock and returns the read block |
| DataCollector.SetSize | ntlab_opengl_realtime_visualization/RealtimeDataTransfer/DataCollector.h:109-110 | resizing keeps the leading slots that fit and zeroes the slots it adds |
| DataCollector.Resized | ntlab_opengl_realtime_visualization/RealtimeDataTransfer/DataCollector.h:109-110 | the read block reaches the expected size, and is left alone when it already has it |
| DataCollector.FinishedReading | ntlab_opengl_realtime_visualization/RealtimeDataTransfer/DataCollector.h:107-120 | the read block is resized first; a pending swap is then performed, which frees the write lock, clears the flag and notifies once; the read lock is always released |
| CollectorTraces.StepKeepsInv | ntlab_opengl_realtime_visualization/RealtimeDataTransfer/DataCollector.h:74-120 | every call keeps the invariant that a pending swap implies both locks are taken |
| CollectorTraces.RunKeepsInv | ntlab_opengl_realtime_visualization/RealtimeDataTransfer/DataCollector.h:74-120 | the invariant holds after any sequence of calls |
| CollectorTraces.DeferredSwapBlocksWriters | ntlab_opengl_realtime_visualization/RealtimeDataTransfer/DataCollector.h:83-85 | while a swap is deferred, no sequence of calls without `finishedReading` changes the blocks or the log, and every `startWriting` fails |
| CollectorTraces.DeferredSwapCompletesOnRelease | ntlab_opengl_realtime_visualization/RealtimeDataTransfer/DataCollector.h:111-117 | releasing the read block completes a deferred swap: the written block becomes readable, the sink is notified, and writing is possible again |
| CollectorTraces.OnlyFinishedReadingResizes | ntlab_opengl_realtime_visualization/RealtimeDataTransfer/DataCollector.h:109-110 | no call sequence without `finishedReading` changes the block sizes |
| CollectorTraces.EmptyUntilFirstFinishedReading | ntlab_opengl_realtime_visualization/RealtimeDataTransfer/DataCollector.h:132-139 | a new collector's blocks stay empty until the first `finishedReading` |
| CollectorTraces.StepPermutesBlocks | ntlab_opengl_realtime_visualization/RealtimeDataTransfer/DataCollector.h:78 | apart from writes into the block and resizes, a call only permutes the pair of blocks |
| CollectorTraces.WriteThenReadRoundTrip | ntlab_opengl_realtime_visualization/RealtimeDataTransfer/DataCollector.h:61-104 | data written into an idle collector's write block and finished is exactly what the next read returns, with one notification |
| CollectorTraces.DeferredWriteIsReadNext | ntlab_opengl_realtime_visualization/RealtimeDataTransfer/DataCollector.h:74-120 | data finished during a read is not announced until the reader releases; then it is what the next read returns |
| Layout.OffsetTable | ntlab_opengl_realtime_visualization/RealtimeDataTransfer/OscilloscopeDataCollector.cpp:167-171 | channel i starts at i times the stride |
| Layout.OffsetTableDisjoint | ntlab_opengl_realtime_visualization/RealtimeDataTransfer/OscilloscopeDataCollector.cpp:162-172 | the channel slices of an offset table are disjoint and inside a block of numChannels · stride slots |
| Layout.CopyIntoChannels | ntlab_opengl_realtime_visualization/RealtimeDataTransfer/OscilloscopeDataCollector.cpp:106-111 | copying `count` samples of every channel to the same position changes exactly that window of each channel and nothing else |
| Layout.CopyToChannelStarts | ntlab_opengl_realtime_visualization/RealtimeDataTransfer/OscilloscopeDataCollector.cpp:93-97 | the trigger copy puts the samples from the trigger index at the start of each channel and keeps the rest of it |
| SwappableBuffer.SwapPtrs | ntlab_opengl_realtime_visualization/Buffers/SwappableBuffer.h:232-234 | read and write regions exchange roles; no region is copied or changed |
| SwappableBuffer.ReallocateChannels | ntlab_opengl_realtime_visualization/Buffers/SwappableBuffer.h:237-258 | both regions hold size · numChannels samples, channel i sits at i · size, region 0 is written and region 1 read, the append cursor is empty, and zero-initialisation zeroes both regions |
| SwappableBuffer.Create | ntlab_opengl_realtime_visualization/Buffers/SwappableBuffer.h:54-57 | a new buffer has the requested size and channels, no lock and no pending swap; the channel count defaults to 0 and zeroing defaults to off |
| SwappableBuffer.CreateByDefault | ntlab_opengl_realtime_visualization/Buffers/SwappableBuffer.h:54-57 | with the default arguments the buffer has no channel and both regions are empty |
| SwappableBuffer.AddChannels | ntlab_opengl_realtime_visualization/Buffers/SwappableBuffer.h:63-66 | the channel count grows by the given number and both regions are zeroed |
| SwappableBuffer.DeleteChannels | ntlab_opengl_realtime_visualization/Buffers/SwappableBuffer.h:72-76 | only as many channels as exist can be deleted; the count shrinks and both regions are zeroed |
| SwappableBuffer.SetNumChannels | ntlab_opengl_realtime_visualization/Buffers/SwappableBuffer.h:82-84 | the channel count becomes the given number and both regions are zeroed |
| SwappableBuffer.SwapOrDefer | ntlab_opengl_realtime_visualization/Buffers/SwappableBuffer.h:115-123 | with the read lock free, the written region becomes readable at once; otherwise the swap is left to the reader |
| SwappableBuffer.FillChannels | ntlab_opengl_realtime_visualization/Buffers/SwappableBuffer.h:110-113 | every channel holds the first n input samples followed by zeros up to the buffer size |
| SwappableBuffer.WriteNewBuffer | ntlab_opengl_realtime_visualization/Buffers/SwappableBuffer.h:103-130 | a write with the write lock taken changes nothing; otherwise the newest region holds the zero-padded data, even over a block not yet consumed, the swap happens or is deferred as the read lock dictates, and the append cursor is empty |
| SwappableBuffer.AppendChannels | ntlab_opengl_realtime_visualization/Buffers/SwappableBuffer.h:143-148 | each channel gets `count` samples at the append position and keeps every other sample |
| SwappableBuffer.AppendToWriteBuffer | ntlab_opengl_realtime_visualization/Buffers/SwappableBuffer.h:138-174 | with the write lock taken nothing changes and the result is false; otherwise min(available, remaining) samples are appended and the surplus dropped, and the result is true exactly when the region filled up, in which case it is swapped or handed over and the cursor emptied |
| SwappableBuffer.ReadChannels | ntlab_opengl_realtime_visualization/Buffers/SwappableBuffer.h:191-198 | the reader sees channel ch of the read region as channel ch |
| SwappableBuffer.GetReadBuffer | ntlab_opengl_realtime_visualization/Buffers/SwappableBuffer.h:205-213 | takes the read lock and hands out the read region's channels |
| SwappableBuffer.ReleaseReadBuffer | ntlab_opengl_realtime_visualization/Buffers/SwappableBuffer.h:184-189 | as written: a pending swap is performed, the flag stays set, and the read lock is released |
| SwappableBuffer.ReleaseReadBufferClearing | ntlab_opengl_realtime_visualization/Buffers/SwappableBuffer.h:184-189 | corrected: after the release the newest completed region is the read region and no swap is pending |
| SwappableBuffer.RereadWithoutWriteIsStable | ntlab_opengl_realtime_visualization/Buffers/SwappableBuffer.h:205-209 | with the corrected release, two reads with no write between them see the same samples |
| SwappableBuffer.DeferredWriteStaysVisible | ntlab_opengl_realtime_visualization/Buffers/SwappableBuffer.h:91-97 | with the corrected release, data written during a read is what the next read and the one after it see |
| SwappableBuffer.StaleBlockOnSecondRead | ntlab_opengl_realtime_visualization/Buffers/SwappableBuffer.h:184-189 | as written: after a write during a read, the next read sees the new data but the read after that sees the old block again |
| Oscilloscope.Create | ntlab_opengl_realtime_visualization/RealtimeDataTransfer/OscilloscopeDataCollector.h:62 | the identifier is "Oscilloscope" followed by the extension; no block is held, nothing is expected yet, and triggering is off on channel 0 |
| Oscilloscope.Acquire | ntlab_opengl_realtime_visualization/RealtimeDataTransfer/OscilloscopeDataCollector.cpp:62-65 | a write block is requested only when none is held; a refused request leaves everything unchanged |
| Oscilloscope.PrepareForNextSampleBlock | ntlab_opengl_realtime_visualization/RealtimeDataTransfer/OscilloscopeDataCollector.cpp:144-150 | the held block is finished and becomes the newest block, the sink is notified unless a read is in progress, and the frame state is reset |
| Oscilloscope.FillUnmatchingBlockWithZeros | ntlab_opengl_realtime_visualization/RealtimeDataTransfer/OscilloscopeDataCollector.cpp:138-142 | the held block is zeroed over its whole size and finished |
| Oscilloscope.FindTriggerFrom | ntlab_opengl_realtime_visualization/RealtimeDataTransfer/OscilloscopeDataCollector.cpp:85-88 | finds the first rising edge (previous sample ≤ 0, current > 0) at or after the start, or reports there is none |
| Oscilloscope.FindTrigger | ntlab_opengl_realtime_visualization/RealtimeDataTransfer/OscilloscopeDataCollector.cpp:85-88 | the first rising edge in 1..N-1, found exactly when one exists; index 0 is never a trigger |
| Oscilloscope.TriggerCapture | ntlab_opengl_realtime_visualization/RealtimeDataTransfer/OscilloscopeDataCollector.cpp:82-103 | without an edge nothing is written; with one, the frame starts at the first edge |
| Oscilloscope.StartFrameAt | ntlab_opengl_realtime_visualization/RealtimeDataTransfer/OscilloscopeDataCollector.cpp:89-99 | samples from the trigger index go to the start of each channel, and the in-block count is set, not added, to the number copied |
| Oscilloscope.Capture | ntlab_opengl_realtime_visualization/RealtimeDataTransfer/OscilloscopeDataCollector.cpp:104-113 | min(N, expected - count) samples of every channel go to the current position, and the count advances by that number |
| Oscilloscope.CompleteFrame | ntlab_opengl_realtime_visualization/RealtimeDataTransfer/OscilloscopeDataCollector.cpp:115-116 | the block is finished exactly when the count reaches the expected number |
| Oscilloscope.Collect | ntlab_opengl_realtime_visualization/RealtimeDataTransfer/OscilloscopeDataCollector.cpp:80-116 | a push into a held block keeps the configuration and keeps the in-block count below the expected number while a block is held |
| Oscilloscope.Push | ntlab_opengl_realtime_visualization/RealtimeDataTransfer/OscilloscopeDataCollector.cpp:60-119 | with no block obtainable the push is dropped; a channel-count or block-size mismatch finishes a zero-filled block; the configuration is kept |
| Oscilloscope.NoEdgeWritesNothing | ntlab_opengl_realtime_visualization/RealtimeDataTransfer/OscilloscopeDataCollector.cpp:82-103 | while waiting for a trigger, a push without a rising edge only acquires the block |
| Oscilloscope.TriggerHitStartsFrame | ntlab_opengl_realtime_visualization/RealtimeDataTransfer/OscilloscopeDataCollector.cpp:89-99 | after a push with an edge, every channel of the frame starts with the pushed samples from the edge on |
| Oscilloscope.TriggerCaptureStartsFrame | ntlab_opengl_realtime_visualization/RealtimeDataTransfer/OscilloscopeDataCollector.cpp:93-97 | the trigger capture puts the samples from the edge at the start of every channel |
| Oscilloscope.PushOfAcquired | ntlab_opengl_realtime_visualization/RealtimeDataTransfer/OscilloscopeDataCollector.cpp:62-66 | a push that obtains a block is the acquisition followed by collection into that block |
| Oscilloscope.CaptureKeepsBlockSize | ntlab_opengl_realtime_visualization/RealtimeDataTransfer/OscilloscopeDataCollector.cpp:60-119 | an accepted push leaves a frame of numChannels · numSamplesExpected samples |
| Oscilloscope.PushAll | ntlab_opengl_realtime_visualization/RealtimeDataTransfer/OscilloscopeDataCollector.cpp:60-119 | any sequence of pushes keeps the collector consistent and its configuration unchanged |
| Oscilloscope.CaptureWaitsForEdge | ntlab_opengl_realtime_visualization/RealtimeDataTransfer/OscilloscopeDataCollector.h:83-86 | with triggering on, pushes without a rising edge capture nothing, hand nothing on and leave both blocks untouched |
| Oscilloscope.RecalculateMemory | ntlab_opengl_realtime_visualization/RealtimeDataTransfer/OscilloscopeDataCollector.cpp:162-172 | the expected bytes are numChannels · numSamplesExpected · 4, the collector is asked for that many slots, and the channel offsets are disjoint and inside the block |
| Oscilloscope.SetChannels | ntlab_opengl_realtime_visualization/RealtimeDataTransfer/OscilloscopeDataCollector.cpp:30-37 | stores the channels and names and resizes the memory for them |
| Oscilloscope.RecalculateNumSamples | ntlab_opengl_realtime_visualization/RealtimeDataTransfer/OscilloscopeDataCollector.cpp:152-160 | a new frame length resets the in-block count to 0 before the memory is recalculated |
| Oscilloscope.SetTimeViewed | ntlab_opengl_realtime_visualization/RealtimeDataTransfer/OscilloscopeDataCollector.cpp:39-44 | stores the viewed time and restarts the frame at the new length |
| Oscilloscope.SetSampleRate | ntlab_opengl_realtime_visualization/RealtimeDataTransfer/OscilloscopeDataCollector.cpp:46-51 | stores the sample period 1 / rate and restarts the frame at the new length |
| Oscilloscope.EnableTriggering | ntlab_opengl_realtime_visualization/RealtimeDataTransfer/OscilloscopeDataCollector.cpp:53-58 | sets the triggering switch and channel and nothing else |
| Oscilloscope.ApplySettingFromTarget | ntlab_opengl_realtime_visualization/RealtimeDataTransfer/OscilloscopeDataCollector.cpp:121-136 | "timeViewed" with a double sets the viewed time; "isTriggered" with a bool switches triggering and always selects channel 0; anything else changes nothing |
| Oscilloscope.ReaderKeepsValid | ntlab_opengl_realtime_visualization/RealtimeDataTransfer/DataCollector.h:100-120 | the reader's calls keep the oscilloscope's bookkeeping consistent |
| Spectral.Create | ntlab_opengl_realtime_visualization/RealtimeDataTransfer/SpectralDataCollector.cpp:31 | the identifier is "SpectralAnalyzer" followed by the extension; no FFT order is set, the sample cursor and averaging counter are 0, and no block is held |
| Spectral.RecalculateMemory | ntlab_opengl_realtime_visualization/RealtimeDataTransfer/SpectralDataCollector.cpp:109-124 | the block size is numChannels · N, the sample buffer is zeroed, the offsets are disjoint, and the cursor is left unchanged |
| Spectral.SetFFTOrder | ntlab_opengl_realtime_visualization/RealtimeDataTransfer/SpectralDataCollector.cpp:42-52 | N becomes 2^order and the memory is recalculated for it |
| Spectral.SetSampleRate | ntlab_opengl_realtime_visualization/RealtimeDataTransfer/SpectralDataCollector.cpp:54-65 | stores rate and start frequency; when no order is set, order 11 (2048 samples) is applied first |
| Spectral.SetChannels | ntlab_opengl_realtime_visualization/RealtimeDataTransfer/SpectralDataCollector.cpp:33-40 | stores channels and names and resizes the memory for them |
| Spectral.ApplySettingFromTarget | ntlab_opengl_realtime_visualization/RealtimeDataTransfer/SpectralDataCollector.cpp:102-107 | "fftOrder" with a non-negative int sets the FFT order; with a negative int there is no defined result (`None`), because `1 << fftOrder` is undefined; anything else changes nothing |
| Spectral.Store | ntlab_opengl_realtime_visualization/RealtimeDataTransfer/SpectralDataCollector.cpp:74-86 | `count` samples of every channel are stored as (x, 0) at the cursor, and the cursor advances by `count` |
| Spectral.Spectrum | ntlab_opengl_realtime_visualization/RealtimeDataTransfer/SpectralDataCollector.cpp:130-131 | each channel's spectrum is the FFT of that channel's samples, with no window applied |
| Spectral.AverageScale | ntlab_opengl_realtime_visualization/RealtimeDataTransfer/SpectralDataCollector.cpp:158 | the scale factor is 2 / (N · 3) |
| Spectral.AcquireCleared | ntlab_opengl_realtime_visualization/RealtimeDataTransfer/SpectralDataCollector.cpp:133-141 | at the start of a cycle a block is obtained and zeroed; if none can be obtained, nothing changes |
| Spectral.AddFrame | ntlab_opengl_realtime_visualization/RealtimeDataTransfer/SpectralDataCollector.cpp:146-162 | the magnitudes are added to the block and the counter advances; at the third frame the block is scaled, finished and released, and the counter restarts |
| Spectral.ProcessFFT | ntlab_opengl_realtime_visualization/RealtimeDataTransfer/SpectralDataCollector.cpp:126-177 | without a block the frame is discarded and the counter stays; on a size mismatch the block is finished early without resetting the counter; the cursor always ends at 0 |
| Spectral.Push | ntlab_opengl_realtime_visualization/RealtimeDataTransfer/SpectralDataCollector.cpp:67-93 | a push with the wrong channel count, or with the processing guard taken, is ignored; otherwise up to the missing number of samples is stored; a full buffer is then exactly the `ProcessFFT` of the stored state, and a cursor beyond N stores nothing and transforms |
| Spectral.ThreeFramesAverage | ntlab_opengl_realtime_visualization/RealtimeDataTransfer/SpectralDataCollector.h:43-44 | three transforms from a fresh cycle produce one block: the sum of the three magnitude frames times 2 / (N · 3) |
| Spectral.OpeningFrame | ntlab_opengl_realtime_visualization/RealtimeDataTransfer/SpectralDataCollector.cpp:133-154 | the first transform of a cycle writes its magnitudes into a zeroed block and counts one |
| Spectral.AccumulatingFrame | ntlab_opengl_realtime_visualization/RealtimeDataTransfer/SpectralDataCollector.cpp:146-162 | a later transform adds its magnitudes; the last one of the cycle also scales and finishes the block |
| Spectral.FirstTwoFrames | ntlab_opengl_realtime_visualization/RealtimeDataTransfer/SpectralDataCollector.cpp:146-154 | after two transforms the held block is the sum of their magnitude frames |
| Spectral.ClosingFrame | ntlab_opengl_realtime_visualization/RealtimeDataTransfer/SpectralDataCollector.cpp:156-162 | the third transform turns the running sum into the scaled average and releases the block |
| Spectral.IdenticalFramesAverageToFrame | ntlab_opengl_realtime_visualization/RealtimeDataTransfer/SpectralDataCollector.cpp:146-162 | three transforms of the same samples from a fresh cycle hand on a block equal to that frame times 2 / N |
| SinkAndSource.IndexOf | ntlab_opengl_realtime_visualization/RealtimeDataTransfer/LocalDataSinkAndSource.h:62 | the first index holding the identifier, and -1 exactly when it is absent |
| SinkAndSource.RegisterVisualizationTarget | ntlab_opengl_realtime_visualization/RealtimeDataTransfer/LocalDataSinkAndSource.h:46-52 | appends the identifier and the target; the target's index is the first one holding its identifier |
| SinkAndSource.RegisterTargets | ntlab_opengl_realtime_visualization/RealtimeDataTransfer/LocalDataSinkAndSource.h:46-52 | registering a list of targets appends their identifiers in order |
| SinkAndSource.RegisteredTargets | ntlab_opengl_realtime_visualization/RealtimeDataTransfer/LocalDataSinkAndSource.h:46-52 | target p carries the p-th identifier and the first index holding it, so duplicates share an index; with unique identifiers the index is p |
| SinkAndSource.RegisterTargetsEntries | ntlab_opengl_realtime_visualization/RealtimeDataTransfer/LocalDataSinkAndSource.h:46-52 | each target registered later carries its identifier and the first index of it among those registered so far |
| SinkAndSource.FinishedRegisteringTargets | ntlab_opengl_realtime_visualization/RealtimeDataTransfer/LocalDataSinkAndSource.h:55-58 | the collector table gets one slot per registered identifier, keeping existing entries |
| SinkAndSource.SetOrAppend | ntlab_opengl_realtime_visualization/RealtimeDataTransfer/LocalDataSinkAndSource.h:67 | an index inside the table replaces that entry only; an index past the end appends |
| SinkAndSource.RegisterDataCollector | ntlab_opengl_realtime_visualization/RealtimeDataTransfer/LocalDataSinkAndSource.h:60-71 | fails with the documented message, and no change, exactly when no target has the collector's identifier; otherwise the sink index is the matching index and the collector is stored there |
| SinkAndSource.CollectorFor | ntlab_opengl_realtime_visualization/RealtimeDataTransfer/LocalDataSinkAndSource.h:73-86 | reads and settings from a target go to the collector stored at the target's index |
| SinkAndSource.TargetFor | ntlab_opengl_realtime_visualization/RealtimeDataTransfer/LocalDataSinkAndSource.h:88-91 | settings from a collector go to the target at its sink index |
| SinkAndSource.StartReading | ntlab_opengl_realtime_visualization/RealtimeDataTransfer/LocalDataSinkAndSource.h:73-76 | only the target's collector changes: it becomes exactly what the collector's own `startReading` makes of it (read lock taken), and its read block is returned |
| SinkAndSource.FinishedReading | ntlab_opengl_realtime_visualization/RealtimeDataTransfer/LocalDataSinkAndSource.h:78-81 | only the target's collector changes: it becomes exactly what the collector's own `finishedReading` makes of it, so the resize, any deferred swap with its notification, and the read unlock all happen there |
| SinkAndSource.RoutingRoundTrip | ntlab_opengl_realtime_visualization/RealtimeDataTransfer/LocalDataSinkAndSource.h:60-91 | with unique identifiers, a registered collector is reached from its target, and its settings reach that same target |
| SinkAndSource.RegisterAtOwnIndex | ntlab_opengl_realtime_visualization/RealtimeDataTransfer/LocalDataSinkAndSource.h:60-71 | a collector whose identifier first appears at p is stored at p with sink index p |
| SinkAndSource.SettingsReachMatchingTarget | ntlab_opengl_realtime_visualization/RealtimeDataTransfer/LocalDataSinkAndSource.h:88-91 | after a successful registration, the collector's settings reach a target with the collector's identifier |
| SinkAndSource.LaterCollectorReplaces | ntlab_opengl_realtime_visualization/RealtimeDataTransfer/LocalDataSinkAndSource.h:66-67 | a second collector with the same identifier replaces the first in the routing |
| Float2String.CopyUntilBudget | ntlab_opengl_realtime_visualization/Utilities/Float2String.h:84-100 | the loop copies a prefix of the formatted text and stops at the first point where the non-'.' characters reach the budget, each '-' raising it by one |
| Float2String.WithFixedLength | ntlab_opengl_realtime_visualization/Utilities/Float2String.h:61-111 | NaN gives "NaN", infinity gives "Inf"; numbers below 10^-digits are formatted as 0; the copied prefix is padded with a '.' only when none was copied, then the missing zeros; for digits ≥ 1 the result has exactly `digits` characters that are neither '.' nor '-' |
| Float2String.FixedLengthDigits | ntlab_opengl_realtime_visualization/Utilities/Float2String.h:102-108 | the padding brings a prefix with at most `digits` digits up to exactly `digits` |
| Float2String.BestSIPrefix | ntlab_opengl_realtime_visualization/Utilities/Float2String.h:123-128 | the prefix is floor(e · log10(2) / 3), clamped to femto..peta |
| Float2String.BestSIPrefixUnclamped | ntlab_opengl_realtime_visualization/Utilities/Float2String.h:124-128 | for base-2 exponents in -49..59 the clamp does not act |
| Float2String.BestSIPrefixMonotone | ntlab_opengl_realtime_visualization/Utilities/Float2String.h:123-128 | a larger exponent never selects a smaller prefix |
| Float2String.PrefixSymbol | ntlab_opengl_realtime_visualization/Utilities/Float2String.h:157-169 | the table lookup at prefix + 5 is in bounds for every prefix, and `none` gives "" |
| Float2String.PrefixSymbolsDistinct | ntlab_opengl_realtime_visualization/Utilities/Float2String.h:168 | different prefixes have different symbols |
| Float2String.WithSIPrefix | ntlab_opengl_realtime_visualization/Utilities/Float2String.h:148-164 | NaN and infinity as in the fixed-length conversion; otherwise the number divided by 10^(3·prefix), converted at fixed length, with the prefix symbol appended |
| Float2String.Pow10Succ | ntlab_opengl_realtime_visualization/Utilities/Float2String.h:76 | each step of the exponent of `pow (10, n)` is a factor of ten, for negative exponents too |
| Float2String.WithBestSIPrefix | ntlab_opengl_realtime_visualization/Utilities/Float2String.h:137-142 | the same conversion with the best prefix for the number |
| SerializableRange.MakeRange | ntlab_opengl_realtime_visualization/Utilities/SerializableRange.h:12 | the range starts at min and ends at max, or at min when max lies below it |
| SerializableRange.SetStart | ntlab_opengl_realtime_visualization/Utilities/SerializableRange.h:26 | the start moves to the new value and the end is dragged along only when it would lie below it |
| SerializableRange.SetEnd | ntlab_opengl_realtime_visualization/Utilities/SerializableRange.h:27 | the end moves to the new value and the start is dragged along only when it would lie above it |
| SerializableRange.SplitAll | ntlab_opengl_realtime_visualization/Utilities/SerializableRange.h:20 | splitting gives one more token than there are separators, and no token contains one |
| SerializableRange.Tokens | ntlab_opengl_realtime_visualization/Utilities/SerializableRange.h:20 | the empty text has no tokens; any other text has one more token than separators |
| SerializableRange.TokenAt | ntlab_opengl_realtime_visualization/Utilities/SerializableRange.h:26-27 | a missing token reads as the empty text |
| SerializableRange.ToString | ntlab_opengl_realtime_visualization/Utilities/SerializableRange.h:17 | the start text, the separator and the end text, which split back into the two texts when neither contains the separator and pass the debug checks when both are number text |
| SerializableRange.FromString | ntlab_opengl_realtime_visualization/Utilities/SerializableRange.h:18-28 | the start is set from token 0, then the end from token 1, so the end is always token 1 and the start is token 0 unless that lies above the end |
| SerializableRange.FromText | ntlab_opengl_realtime_visualization/Utilities/SerializableRange.h:14 | the default range (0, 0) updated from the text: whenever the first token parses to at most the second, the result is exactly those two bounds, of either sign |
| SerializableRange.FromVar | ntlab_opengl_realtime_visualization/Utilities/SerializableRange.h:15 | construction from a var goes through the var's text; a double var is turned into text by its own formatter, not the range's |
| SerializableRange.ToVar | ntlab_opengl_realtime_visualization/Utilities/SerializableRange.h:31 | the var holds the `toString` text |
| SerializableRange.RangeRoundTrip | ntlab_opengl_realtime_visualization/Utilities/SerializableRange.h:17-28 | reading a range's text back into any range gives the range, when parsing undoes formatting |
| SerializableRange.VarRoundTrip | ntlab_opengl_realtime_visualization/Utilities/SerializableRange.h:15-31 | the var conversion round-trips the same way, whatever formatter doubles in a var use |
| PerformanceAnalyzer.NewSection | ntlab_opengl_realtime_visualization/Utilities/PerformanceAnalyzer.h:60-66 | a new section has both counters at zero and writes to the first |
| PerformanceAnalyzer.SectionStart | ntlab_opengl_realtime_visualization/Utilities/PerformanceAnalyzer.h:47-50 | records the clock and changes no counter |
| PerformanceAnalyzer.SectionEnd | ntlab_opengl_realtime_visualization/Utilities/PerformanceAnalyzer.h:52-57 | the write counter gains the ticks since the start (modulo 2^64) and one measurement; the other counter is untouched; without a start, the ticks are measured from whatever the uninitialised field holds |
| PerformanceAnalyzer.EndWithoutStartReadsUnsetField | ntlab_opengl_realtime_visualization/Utilities/PerformanceAnalyzer.h:52-69 | an end without a start counts a measurement whose ticks depend on the uninitialised field; after a start that field plays no part |
| PerformanceAnalyzer.MeasureAdds | ntlab_opengl_realtime_visualization/Utilities/PerformanceAnalyzer.h:52-57 | a run of measurements adds its count and its elapsed ticks to the write counter only |
| PerformanceAnalyzer.SwapCounter | ntlab_opengl_realtime_visualization/Utilities/PerformanceAnalyzer.h:71-76 | as written: the counters exchange roles, the counter previously written is returned, and no counter is cleared |
| PerformanceAnalyzer.SwapCounterResetting | ntlab_opengl_realtime_visualization/Utilities/PerformanceAnalyzer.h:71-76 | corrected: as the swap, but the new write counter starts from zero |
| PerformanceAnalyzer.CreateMeasurementSection | ntlab_opengl_realtime_visualization/Utilities/PerformanceAnalyzer.h:85-91 | appends one new section and reports its index, which is the previous section count |
| PerformanceAnalyzer.AverageTimeAsWritten | ntlab_opengl_realtime_visualization/Utilities/PerformanceAnalyzer.h:111-112 | as written: the average is 1 / clock rate whenever any tick was counted, and NaN otherwise |
| PerformanceAnalyzer.AverageTime | ntlab_opengl_realtime_visualization/Utilities/PerformanceAnalyzer.h:124-128 | corrected: the average times the measurement count and the clock rate gives the ticks; NaN exactly when nothing was measured |
| PerformanceAnalyzer.AverageAsWrittenIgnoresCounts | ntlab_opengl_realtime_visualization/Utilities/PerformanceAnalyzer.h:111 | one 100-tick measurement and five 1-tick measurements report the same average as written, but not when corrected |
| PerformanceAnalyzer.GetResultsForAll | ntlab_opengl_realtime_visualization/Utilities/PerformanceAnalyzer.h:97-114 | as written: one name, count and average per section, in creation order, from the counter the section was writing; each section keeps its name and last start, the counters only exchange roles and none is cleared; the average is the as-written one |
| PerformanceAnalyzer.SwapAll | ntlab_opengl_realtime_visualization/Utilities/PerformanceAnalyzer.h:105-107 | every section, in order, is swapped as written |
| PerformanceAnalyzer.QueryAllTwiceRestores | ntlab_opengl_realtime_visualization/Utilities/PerformanceAnalyzer.h:97-114 | as written: two `getResultsForAll` calls with nothing measured between leave the analyzer as it was, and a query never changes a name or a last start |
| PerformanceAnalyzer.GetResultFor | ntlab_opengl_realtime_visualization/Utilities/PerformanceAnalyzer.h:120-129 | as written: the average and count of the section's write counter; the counters exchange roles and none is cleared; the section keeps its name and last start; other sections are unchanged |
| PerformanceAnalyzer.GetResultsForAllResetting | ntlab_opengl_realtime_visualization/Utilities/PerformanceAnalyzer.h:93-96 | as documented: the same reports with the corrected average; each section keeps its name and last start, and its new write counter starts from zero |
| PerformanceAnalyzer.SwapAllResetting | ntlab_opengl_realtime_visualization/Utilities/PerformanceAnalyzer.h:93-96 | every section, in order, is swapped with the resetting swap |
| PerformanceAnalyzer.QueryAllResettingTwiceClears | ntlab_opengl_realtime_visualization/Utilities/PerformanceAnalyzer.h:93-96 | as documented: two queries with nothing measured between leave every section with two zero counters and its name |
| PerformanceAnalyzer.GetResultForResetting | ntlab_opengl_realtime_visualization/Utilities/PerformanceAnalyzer.h:116-119 | as documented: the corrected average, present exactly when something was measured, and the section's new write counter starts from zero; the section keeps its name and last start; other sections are unchanged |
| PerformanceAnalyzer.MeasureIn | ntlab_opengl_realtime_visualization/Utilities/PerformanceAnalyzer.h:47-57 | measurements in one section change only that section |
| PerformanceAnalyzer.QueryTwiceRestores | ntlab_opengl_realtime_visualization/Utilities/PerformanceAnalyzer.h:71-76 | as written: two queries with nothing measured between leave the analyzer as it was |
| PerformanceAnalyzer.QueryAsWrittenCarriesStaleCount | ntlab_opengl_realtime_visualization/Utilities/PerformanceAnalyzer.h:116-129 | as written: a query reports the measurements since the previous query plus the count from the period before |
| PerformanceAnalyzer.QueriesRepeatStaleCount | ntlab_opengl_realtime_visualization/Utilities/PerformanceAnalyzer.h:116-129 | as written: one measurement followed by three `getResultFor` calls is reported by the first and again by the third |
| PerformanceAnalyzer.QueryAverageIgnoresCounts | ntlab_opengl_realtime_visualization/Utilities/PerformanceAnalyzer.h:124 | as written: a section measured once for 100 ticks and one measured five times for 1 tick report the same average; the documented query tells them apart |
| PerformanceAnalyzer.QueryCarriesStaleCount | ntlab_opengl_realtime_visualization/Utilities/PerformanceAnalyzer.h:71-76 | as written, per section: after a swap, the next swap returns the run plus the other counter's old count |
| PerformanceAnalyzer.StaleCountReappears | ntlab_opengl_realtime_visualization/Utilities/PerformanceAnalyzer.h:71-76 | as written, per section: one measurement and three swaps return it on the first and third |
| PerformanceAnalyzer.ResettingSwapCountsOnePeriod | ntlab_opengl_realtime_visualization/Utilities/PerformanceAnalyzer.h:71-76 | with the corrected swap, a swap returns exactly the measurements since the previous swap and their ticks |
| PerformanceAnalyzer.QueryReportsPeriod | ntlab_opengl_realtime_visualization/Utilities/PerformanceAnalyzer.h:116-129 | with the documented query, a run between two queries is reported exactly: its count, and the average of its ticks over its count, present exactly when the run is not empty |

## Left out

- Real concurrency is not modelled. This covers interleaving inside a call, memory
  ordering, the unsynchronised read of `readerShouldSwapPtrs`, `std::mutex` ownership
  rules and blocking. Each call is one atomic step, and a blocking `lock()` is a
  precondition.
- The GUI update messages (`updateGUI*`, `updateAllGUIParameters`) are left out, and so is
  the `applySettingToTarget` traffic they cause. They only forward values to the
  visualisation side.
- The floating-point time base (`roundToInt (tView / tSample)`) is left out. Operations
  that recompute the oscilloscope's frame length take the resulting natural number as a
  parameter. The `jassert`s of `setTimeViewed` and `setSampleRate` are kept as
  preconditions (a positive time, a positive rate); the one in `recalculateNumSamples`
  is left out.
- `juce::dsp::FFT`, `std::abs` of complex numbers and 32-bit float rounding are
  parameters or exact reals. `spectralBuffer` is not kept as state: it is recomputed from
  the sample buffer when needed.
- Spectral.SetFFTOrder: takes a natural order. A negative order makes `1 << fftOrder`
  undefined. That case is modelled only for an order sent by a target:
  `Spectral.ApplySettingFromTarget` gives `None` for it. A negative order passed to
  `setFFTOrder` directly is not modelled. Orders from 31 on overflow the `int` FFT
  length; the model does not bound the order.
- Spectral.ProcessFFT: before any `setFFTOrder` the `fft` pointer is null, and a
  transform would dereference it. The model transforms with the given FFT regardless. A
  push reaches that state only with channels set and no order or sample rate set.
- The processing guard of the spectral collector is a parameter of `Spectral.Push`. The
  nested `try_lock` in `processFFT` always succeeds, because the mutex is recursive.
- `int` and `size_t` overflow of channel counts, sample counts, byte sizes and
  `numMeasurements` is not modelled. Only the `uint64_t` tick counter wraps.
- The trigger channel is read only when it exists (`Oscilloscope.TriggerReadable`). The
  code reads out of bounds otherwise.
- A target without a collector is not routed (`SinkAndSource.CollectorFor` gives `None`).
  The code dereferences a null pointer there.
- The `sink` back-pointer and `setDataSource` are left out; they only link the objects.
- The `dataBlockReady` callback is recorded in a log rather than called.
- `std::ostringstream` formatting, `frexp` and `pow`/`powf` are left out:
  - the formatted text is a parameter;
  - the base-2 exponent of the pre-scaled number is a parameter of
    `Float2String.WithBestSIPrefix`;
  - powers of ten are exact.
- The `jassert` on the magnitude in `withFixedLength` is a debug check and is left out.
- The micro symbol is modelled as U+03BC. The source file stores it as UTF-8 bytes that
  read as mis-encoded text.
- JUCE number formatting and parsing are parameters of `SerializableRange`. Its debug
  assertions are the predicate `WellFormedText`, which `fromString` does not enforce. The
  `juce::Range` conversion operator is the identity.
- PerformanceAnalyzer.GetResultFor: requires an index of an existing section, and so does
  `PerformanceAnalyzer.GetResultForResetting`. For any other index `OwnedArray::operator[]`
  gives a null pointer, which the code then dereferences.
- PerformanceAnalyzer.SectionEnd: the uninitialised `numTicksLastStart` is read as an
  arbitrary value, the parameter `unsetStart`. Reading it is undefined in C++.
- Section names and clock reads in `PerformanceAnalyzer` are plain values. The tick rate
  is a positive parameter.
- `channelNames` and other `juce::var` payloads are kept as plain sequences.
- `SwappableBuffer`: uninitialised memory (`initializeWithZeros == false`) is given as a
  parameter. `reallocateChannels` resizes only the first channel-pointer array; the other
  keeps stale entries past the channel count that no reader uses. This is not modelled.

## Findings

| source | as written | input that shows it | evidently intended | confidence | as-written member | corrected member |
|---|---|---|---|---|---|---|
| ntlab_opengl_realtime_visualization/Buffers/SwappableBuffer.h:184-189 | the read-pointer destructor performs the deferred swap but never clears `readerShouldSwapPtrs` | read, write the whole buffer during that read, then read twice more with no write between: the last read sees the block from before the write | clear the flag after the deferred swap, as `DataCollector::finishedReading` does | not executed | SwappableBuffer.StaleBlockOnSecondRead | SwappableBuffer.DeferredWriteStaysVisible |
| ntlab_opengl_realtime_visualization/Utilities/PerformanceAnalyzer.h:71-76 | `swapCounter` never zeroes the counter it hands to the writer, although both queries are documented to reset it | one measurement, then three queries with nothing measured between: the third query reports that measurement again | the new write counter starts from zero | not executed | PerformanceAnalyzer.QueriesRepeatStaleCount | PerformanceAnalyzer.QueryReportsPeriod |
| ntlab_opengl_realtime_visualization/Utilities/PerformanceAnalyzer.h:111 | the average divides `numTicks` by `numTicks` | one measurement of 100 ticks and five of 1 tick each both report 1 / ticks-per-second | divide by `numMeasurements` | not executed | PerformanceAnalyzer.QueryAverageIgnoresCounts | PerformanceAnalyzer.GetResultForResetting |

`PerformanceAnalyzer.GetResultsForAll` and `PerformanceAnalyzer.GetResultFor` model the
queries as written. The members ending in `Resetting` are the queries with both
corrections.
