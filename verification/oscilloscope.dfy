/**
 * `OscilloscopeDataCollector`: collects `numSamplesExpected` samples per channel into the
 * write block of its `DataCollector`, optionally starting each frame at a rising edge of a
 * trigger channel, and hands every full frame to the sink.
 *
 * The number of samples per frame is derived from floating-point time values in the
 * source; here every operation that recomputes it takes the resulting natural number as a
 * parameter. Messages to the GUI are not modelled.
 */
module Oscilloscope {
  import opened Types
  import opened Layout
  import DC = DataCollector

  const SettingTimeViewed: string := "timeViewed"
  const SettingIsTriggered: string := "isTriggered"

  datatype Scope = Scope(
    dc: DC.Collector,
    numChannels: nat,
    channelNames: seq<string>,
    channelOffset: seq<nat>,
    holdsWriteBlock: bool,                 // currentWriteBlock != nullptr
    expectedNumBytesForMemoryBlock: nat,
    numSamplesInCurrentBlock: nat,
    tSample: real,
    tView: real,
    numSamplesExpected: nat,
    triggeringEnabled: bool,
    foundTriggerInCurrentBlock: bool,
    triggerChannel: int)

  /** The producer-side bookkeeping agrees with the collector's locks. */
  predicate ValidProtocol(o: Scope) {
    && DC.Inv(o.dc)
    && (o.holdsWriteBlock <==> DC.WriterHolds(o.dc))
    && o.numSamplesInCurrentBlock <= o.numSamplesExpected
    && (!o.holdsWriteBlock ==> o.numSamplesInCurrentBlock == 0 && !o.foundTriggerInCurrentBlock)
  }

  /** The memory bookkeeping agrees with the channel count and frame length. */
  ghost predicate ValidMemory(o: Scope) {
    && IsOffsetTable(o.channelOffset, o.numChannels, o.numSamplesExpected)
    && o.expectedNumBytesForMemoryBlock == o.numChannels * o.numSamplesExpected * BytesPerSample
    && o.dc.expectedBlockSize == o.numChannels * o.numSamplesExpected
  }

  ghost predicate Valid(o: Scope) {
    ValidProtocol(o) && ValidMemory(o)
  }

  /**
   * A new collector with id "Oscilloscope" followed by the extension: no block held, no
   * samples expected yet, triggering off on channel 0.
   */
  function Create(identifierExtension: string := "1"): (o: Scope)
    ensures Valid(o)
    ensures |o.dc.id| == |"Oscilloscope"| + |identifierExtension|
    ensures o.dc.id[..|"Oscilloscope"|] == "Oscilloscope" && o.dc.id[|"Oscilloscope"|..] == identifierExtension
    ensures !o.holdsWriteBlock && o.numSamplesInCurrentBlock == 0 && o.numSamplesExpected == 0
    ensures o.numChannels == 0 && !o.triggeringEnabled && o.triggerChannel == 0
    ensures DC.Idle(o.dc) && o.dc.sinkIdx == -1
  {
    Scope(DC.Create("Oscilloscope" + identifierExtension), 0, [], [], false, 0, 0,
          1.0, 0.01, 0, false, false, 0)
  }

  /** The held block has the size the current configuration expects, counted in bytes. */
  predicate BlockMatches(o: Scope) {
    BytesPerSample * |o.dc.writeBlock| == o.expectedNumBytesForMemoryBlock
  }

  /** The trigger channel is read only when triggering searches a pushed buffer of the right width. */
  predicate TriggerReadable(o: Scope, buf: AudioBuffer) {
    (o.triggeringEnabled && !o.foundTriggerInCurrentBlock && |buf.channels| == o.numChannels)
      ==> 0 <= o.triggerChannel < o.numChannels
  }

  /** A push can obtain a write block: one is held already, or the write lock is free. */
  predicate CanWrite(o: Scope) {
    o.holdsWriteBlock || !o.dc.writeLocked
  }

  /** The block that holds the samples of the frame being collected or just completed. */
  function Frame(o: Scope): seq<real> {
    if o.holdsWriteBlock then o.dc.writeBlock else DC.NewestBlock(o.dc)
  }

  /** Requests a write block when none is held; a refused request leaves everything as it was. */
  function Acquire(o: Scope): (r: Scope)
    requires Valid(o)
    ensures Valid(r)
    ensures r.holdsWriteBlock <==> CanWrite(o)
    ensures !o.holdsWriteBlock && CanWrite(o) ==>
              r == o.(holdsWriteBlock := true, dc := o.dc.(writeLocked := true))
    ensures o.holdsWriteBlock || !CanWrite(o) ==> r == o
  {
    if o.holdsWriteBlock then o
    else
      var started := DC.StartWriting(o.dc);
      if started.1 then o.(dc := started.0, holdsWriteBlock := true) else o
  }

  /**
   * `prepareForNextSampleBlock`: finishes the held block and starts over with an empty
   * frame and no trigger found.
   */
  function PrepareForNextSampleBlock(o: Scope): (r: Scope)
    requires Valid(o) && o.holdsWriteBlock
    ensures Valid(r)
    ensures DC.NewestBlock(r.dc) == o.dc.writeBlock
    ensures !o.dc.readLocked ==> r.dc.ready == o.dc.ready + [o.dc.sinkIdx]
    ensures o.dc.readLocked ==> r.dc.ready == o.dc.ready
    ensures r == o.(dc := r.dc, holdsWriteBlock := false, numSamplesInCurrentBlock := 0,
                    foundTriggerInCurrentBlock := false)
    ensures r.dc.expectedBlockSize == o.dc.expectedBlockSize
  {
    o.(dc := DC.FinishedWriting(o.dc), holdsWriteBlock := false, numSamplesInCurrentBlock := 0,
       foundTriggerInCurrentBlock := false)
  }

  /** `fillUnmatchingBlockWithZeros`: clears the whole held block, whatever its size, and finishes it. */
  function FillUnmatchingBlockWithZeros(o: Scope): (r: Scope)
    requires Valid(o) && o.holdsWriteBlock
    ensures Valid(r)
    ensures DC.NewestBlock(r.dc) == Zeros(|o.dc.writeBlock|)
    ensures !r.holdsWriteBlock && r.numSamplesInCurrentBlock == 0 && !r.foundTriggerInCurrentBlock
    ensures r.numChannels == o.numChannels && r.numSamplesExpected == o.numSamplesExpected
  {
    PrepareForNextSampleBlock(o.(dc := DC.WriteBlock(o.dc, Zeros(|o.dc.writeBlock|))))
  }

  /** A rising edge at `i`: the previous sample is at most zero and this one is above zero. */
  predicate RisingEdge(tc: seq<real>, i: int)
    requires 1 <= i < |tc|
  {
    tc[i - 1] <= 0.0 && tc[i] > 0.0
  }

  /** The first rising edge at an index of at least `from`. */
  function FindTriggerFrom(tc: seq<real>, from: nat): (r: Option<nat>)
    requires from >= 1
    ensures r.Some? ==> from <= r.value < |tc| && RisingEdge(tc, r.value)
    ensures r.Some? ==> forall j :: from <= j < r.value ==> !RisingEdge(tc, j)
    ensures r.None? ==> forall j :: from <= j < |tc| ==> !RisingEdge(tc, j)
    decreases |tc| - from
  {
    if from >= |tc| then None
    else if RisingEdge(tc, from) then Some(from)
    else FindTriggerFrom(tc, from + 1)
  }

  /**
   * The trigger search of one pushed buffer: the first index `i` in `1 .. |tc| - 1` with
   * a rising edge. Index 0 is never a hit, so an edge between two pushes goes unseen.
   */
  function FindTrigger(tc: seq<real>): (r: Option<nat>)
    ensures r.Some? ==> 1 <= r.value < |tc| && RisingEdge(tc, r.value)
    ensures r.Some? ==> forall j :: 1 <= j < r.value ==> !RisingEdge(tc, j)
    ensures r.Some? <==> exists j :: 1 <= j < |tc| && RisingEdge(tc, j)
  {
    FindTriggerFrom(tc, 1)
  }

  /** A pushed buffer that the held block accepts: the channel count and the block size match. */
  predicate Accepts(o: Scope, buf: AudioBuffer) {
    |buf.channels| == o.numChannels && BlockMatches(o)
  }

  /** A held block that matches the configuration has one frame of every channel. */
  lemma HeldBlockSize(o: Scope)
    requires Valid(o) && BlockMatches(o)
    ensures |o.dc.writeBlock| == o.numChannels * o.numSamplesExpected
  {
    assert o.numChannels * o.numSamplesExpected * BytesPerSample
           == BytesPerSample * (o.numChannels * o.numSamplesExpected);
  }

  /** Stores new contents of the held block together with the new frame bookkeeping. */
  function StoreFrame(o: Scope, block: seq<real>, found: bool, count: nat): (r: Scope)
    requires Valid(o) && o.holdsWriteBlock && |block| == |o.dc.writeBlock|
    requires count <= o.numSamplesExpected
    ensures Valid(r) && r.holdsWriteBlock && r.dc.writeBlock == block
    ensures r == o.(dc := o.dc.(writeBlock := block), foundTriggerInCurrentBlock := found,
                    numSamplesInCurrentBlock := count)
  {
    o.(dc := DC.WriteBlock(o.dc, block), foundTriggerInCurrentBlock := found, numSamplesInCurrentBlock := count)
  }

  /**
   * The trigger path. Without a rising edge nothing is written. On the first edge `i`,
   * every channel's samples from `i` on go to the start of its region and the in-block
   * count is set, not increased, to the number copied.
   */
  function TriggerCapture(o: Scope, buf: AudioBuffer): (r: Scope)
    requires Valid(o) && o.holdsWriteBlock && WellFormed(buf) && Accepts(o, buf)
    requires 0 <= o.triggerChannel < o.numChannels
    ensures Valid(r) && r.holdsWriteBlock
    ensures FindTrigger(buf.channels[o.triggerChannel]).None? ==> r == o
    ensures FindTrigger(buf.channels[o.triggerChannel]).Some? ==>
              StartsFrameAt(r, o, buf, FindTrigger(buf.channels[o.triggerChannel]).value)
  {
    match FindTrigger(buf.channels[o.triggerChannel])
    case None => o
    case Some(i) => StartFrameAt(o, buf, i)
  }

  /**
   * `r` is `o` after a frame was started at sample `i` of `buf`: every channel starts with
   * the pushed samples from `i` on, as many as fit, and the count is set to that number.
   */
  ghost predicate StartsFrameAt(r: Scope, o: Scope, buf: AudioBuffer, i: nat)
    requires Valid(o) && WellFormed(buf) && Accepts(o, buf) && i <= buf.numSamples
  {
    var count := Min(buf.numSamples - i, o.numSamplesExpected - o.numSamplesInCurrentBlock);
    && r.foundTriggerInCurrentBlock && r.numSamplesInCurrentBlock == count
    && |r.dc.writeBlock| == |o.dc.writeBlock|
    && (forall ch: nat :: ch < o.numChannels ==>
          HasChannel(o.dc.writeBlock, o.numSamplesExpected, ch) &&
          HasChannel(r.dc.writeBlock, o.numSamplesExpected, ch) &&
          Chan(r.dc.writeBlock, o.numSamplesExpected, ch)
            == buf.channels[ch][i .. i + count] + Chan(o.dc.writeBlock, o.numSamplesExpected, ch)[count..])
    && r == o.(dc := o.dc.(writeBlock := r.dc.writeBlock), foundTriggerInCurrentBlock := true,
               numSamplesInCurrentBlock := count)
  }

  /** Starts a frame at sample `i` of the pushed buffer. */
  function StartFrameAt(o: Scope, buf: AudioBuffer, i: nat): (r: Scope)
    requires Valid(o) && o.holdsWriteBlock && WellFormed(buf) && Accepts(o, buf)
    requires i <= buf.numSamples
    ensures Valid(r) && r.holdsWriteBlock && StartsFrameAt(r, o, buf, i)
  {
    var E := o.numSamplesExpected;
    var count := Min(buf.numSamples - i, E - o.numSamplesInCurrentBlock);
    HeldBlockSize(o);
    var block := CopyToChannelStarts(o.dc.writeBlock, E, o.numChannels, buf.channels, i, count);
    AllChannelsInBounds(block, E, o.numChannels);
    StoreFrame(o, block, true, count)
  }

  /**
   * The untriggered path: `min(N, numSamplesExpected - numSamplesInCurrentBlock)` samples
   * of every channel go behind the samples already collected, and the count grows by as
   * many; the rest of the pushed buffer is dropped.
   */
  function Capture(o: Scope, buf: AudioBuffer): (r: Scope)
    requires Valid(o) && o.holdsWriteBlock && WellFormed(buf) && Accepts(o, buf)
    ensures Valid(r) && r.holdsWriteBlock
    ensures var count := Min(buf.numSamples, o.numSamplesExpected - o.numSamplesInCurrentBlock);
            var at := o.numSamplesInCurrentBlock;
            && r.numSamplesInCurrentBlock == at + count
            && |r.dc.writeBlock| == |o.dc.writeBlock|
            && (forall ch: nat :: ch < o.numChannels ==>
                  HasChannel(o.dc.writeBlock, o.numSamplesExpected, ch) &&
                  Chan(r.dc.writeBlock, o.numSamplesExpected, ch)
                    == Chan(o.dc.writeBlock, o.numSamplesExpected, ch)[..at] + buf.channels[ch][..count]
                       + Chan(o.dc.writeBlock, o.numSamplesExpected, ch)[at + count..])
            && r == o.(dc := o.dc.(writeBlock := r.dc.writeBlock), numSamplesInCurrentBlock := at + count)
  {
    var E := o.numSamplesExpected;
    var at := o.numSamplesInCurrentBlock;
    var count := Min(buf.numSamples, E - at);
    HeldBlockSize(o);
    var block := CopyIntoChannels(o.dc.writeBlock, E, o.numChannels, at, buf.channels, 0, count);
    assert forall ch: nat :: ch < o.numChannels ==> buf.channels[ch][0 .. count] == buf.channels[ch][..count];
    StoreFrame(o, block, o.foundTriggerInCurrentBlock, at + count)
  }

  /** Finishes the held block exactly when the frame is complete. */
  function CompleteFrame(o: Scope): (r: Scope)
    requires Valid(o) && o.holdsWriteBlock
    ensures Valid(r)
    ensures o.numSamplesInCurrentBlock == o.numSamplesExpected ==> r == PrepareForNextSampleBlock(o)
    ensures o.numSamplesInCurrentBlock != o.numSamplesExpected ==> r == o
    ensures r.holdsWriteBlock ==> r.numSamplesInCurrentBlock < r.numSamplesExpected
    ensures Frame(r) == o.dc.writeBlock
  {
    if o.numSamplesInCurrentBlock == o.numSamplesExpected then PrepareForNextSampleBlock(o) else o
  }

  /** The accepted part of a push: the trigger or the untriggered path, then the completion test. */
  function Collect(o: Scope, buf: AudioBuffer): (r: Scope)
    requires Valid(o) && o.holdsWriteBlock && WellFormed(buf) && Accepts(o, buf) && TriggerReadable(o, buf)
    ensures Valid(r) && SameConfiguration(r, o)
    ensures r.holdsWriteBlock ==> r.numSamplesInCurrentBlock < r.numSamplesExpected
    ensures |Frame(r)| == |o.dc.writeBlock|
  {
    if o.triggeringEnabled && !o.foundTriggerInCurrentBlock then CompleteFrame(TriggerCapture(o, buf))
    else CompleteFrame(Capture(o, buf))
  }

  /**
   * `pushChannelsSamples`. A push that cannot obtain a write block is dropped. A held block
   * of the wrong size, or a buffer with the wrong channel count, gives a zero-filled block.
   * Otherwise the samples go through the trigger or the untriggered path, and a complete
   * frame is handed on.
   */
  function Push(o: Scope, buf: AudioBuffer): (r: Scope)
    requires Valid(o) && WellFormed(buf) && TriggerReadable(o, buf)
    ensures Valid(r)
    ensures !CanWrite(o) ==> r == o
    ensures CanWrite(o) && !Accepts(o, buf) ==>
              && !r.holdsWriteBlock && r.numSamplesInCurrentBlock == 0
              && DC.NewestBlock(r.dc) == Zeros(|o.dc.writeBlock|)
    ensures r.holdsWriteBlock ==> r.numSamplesInCurrentBlock < r.numSamplesExpected
    ensures r.numChannels == o.numChannels && r.numSamplesExpected == o.numSamplesExpected
    ensures r.triggeringEnabled == o.triggeringEnabled && r.triggerChannel == o.triggerChannel
    ensures r.expectedNumBytesForMemoryBlock == o.expectedNumBytesForMemoryBlock
  {
    var a := Acquire(o);
    if !a.holdsWriteBlock then a
    else if !Accepts(a, buf) then FillUnmatchingBlockWithZeros(a)
    else Collect(a, buf)
  }

  /** With no rising edge in a triggered push, the push does nothing beyond obtaining the block. */
  lemma NoEdgeWritesNothing(o: Scope, buf: AudioBuffer)
    requires Valid(o) && WellFormed(buf) && TriggerReadable(o, buf)
    requires CanWrite(o) && Accepts(o, buf)
    requires o.triggeringEnabled && !o.foundTriggerInCurrentBlock
    requires o.numSamplesInCurrentBlock < o.numSamplesExpected
    requires FindTrigger(buf.channels[o.triggerChannel]).None?
    ensures Push(o, buf) == Acquire(o)
  {
  }

  /**
   * On a trigger hit at `i`, the frame of every channel starts with the pushed samples from
   * `i` on, whether or not the frame completed in the same push.
   */
  lemma TriggerHitStartsFrame(o: Scope, buf: AudioBuffer, ch: nat)
    requires Valid(o) && WellFormed(buf) && TriggerReadable(o, buf)
    requires CanWrite(o) && Accepts(o, buf)
    requires o.triggeringEnabled && !o.foundTriggerInCurrentBlock
    requires FindTrigger(buf.channels[o.triggerChannel]).Some?
    requires ch < o.numChannels
    ensures var i := FindTrigger(buf.channels[o.triggerChannel]).value;
            var count := Min(buf.numSamples - i, o.numSamplesExpected - o.numSamplesInCurrentBlock);
            var r := Push(o, buf);
            && HasChannel(Frame(r), o.numSamplesExpected, ch)
            && Chan(Frame(r), o.numSamplesExpected, ch)[..count] == buf.channels[ch][i .. i + count]
  {
    var a := Acquire(o);
    PushOfAcquired(o, buf);
    var i := FindTrigger(buf.channels[o.triggerChannel]).value;
    var count := Min(buf.numSamples - i, o.numSamplesExpected - o.numSamplesInCurrentBlock);
    TriggerCaptureStartsFrame(a, buf, ch);
    assert Frame(Push(o, buf)) == TriggerCapture(a, buf).dc.writeBlock;
  }

  /** An accepted push is the collecting step applied to the acquired state, whose counters are the old ones. */
  lemma PushOfAcquired(o: Scope, buf: AudioBuffer)
    requires Valid(o) && WellFormed(buf) && TriggerReadable(o, buf)
    requires CanWrite(o) && Accepts(o, buf)
    ensures var a := Acquire(o);
            && a.holdsWriteBlock && Accepts(a, buf) && a.dc.writeBlock == o.dc.writeBlock
            && a.numSamplesInCurrentBlock == o.numSamplesInCurrentBlock
            && a.foundTriggerInCurrentBlock == o.foundTriggerInCurrentBlock
            && SameConfiguration(a, o)
            && Push(o, buf) == Collect(a, buf)
  {
  }

  lemma TriggerCaptureStartsFrame(o: Scope, buf: AudioBuffer, ch: nat)
    requires Valid(o) && o.holdsWriteBlock && WellFormed(buf) && Accepts(o, buf)
    requires 0 <= o.triggerChannel < o.numChannels
    requires FindTrigger(buf.channels[o.triggerChannel]).Some?
    requires ch < o.numChannels
    ensures var i := FindTrigger(buf.channels[o.triggerChannel]).value;
            var count := Min(buf.numSamples - i, o.numSamplesExpected - o.numSamplesInCurrentBlock);
            var t := TriggerCapture(o, buf);
            && HasChannel(t.dc.writeBlock, o.numSamplesExpected, ch)
            && Chan(t.dc.writeBlock, o.numSamplesExpected, ch)[..count] == buf.channels[ch][i .. i + count]
  {
    var i := FindTrigger(buf.channels[o.triggerChannel]).value;
    FrameStartsWithPiece(TriggerCapture(o, buf), o, buf, i, ch);
  }

  /** One channel of a frame started at `i` begins with the pushed samples from `i` on. */
  lemma FrameStartsWithPiece(r: Scope, o: Scope, buf: AudioBuffer, i: nat, ch: nat)
    requires Valid(o) && WellFormed(buf) && Accepts(o, buf) && i <= buf.numSamples
    requires StartsFrameAt(r, o, buf, i) && ch < o.numChannels
    ensures var count := Min(buf.numSamples - i, o.numSamplesExpected - o.numSamplesInCurrentBlock);
            && HasChannel(r.dc.writeBlock, o.numSamplesExpected, ch)
            && Chan(r.dc.writeBlock, o.numSamplesExpected, ch)[..count] == buf.channels[ch][i .. i + count]
  {
    var count := Min(buf.numSamples - i, o.numSamplesExpected - o.numSamplesInCurrentBlock);
    PrefixOfConcat(buf.channels[ch][i .. i + count], Chan(o.dc.writeBlock, o.numSamplesExpected, ch)[count..],
                   Chan(r.dc.writeBlock, o.numSamplesExpected, ch));
  }

  lemma PrefixOfConcat<T>(piece: seq<T>, rest: seq<T>, whole: seq<T>)
    requires whole == piece + rest
    ensures whole[..|piece|] == piece
  { }

  /** A block accepted by the push is written and never resized. */
  lemma CaptureKeepsBlockSize(o: Scope, buf: AudioBuffer)
    requires Valid(o) && WellFormed(buf) && TriggerReadable(o, buf)
    requires CanWrite(o) && Accepts(o, buf)
    ensures |Frame(Push(o, buf))| == o.numChannels * o.numSamplesExpected
  {
  }

  /** Settings that survive any number of pushes. */
  predicate SameConfiguration(a: Scope, b: Scope) {
    && a.numChannels == b.numChannels && a.numSamplesExpected == b.numSamplesExpected
    && a.triggeringEnabled == b.triggeringEnabled && a.triggerChannel == b.triggerChannel
    && a.expectedNumBytesForMemoryBlock == b.expectedNumBytesForMemoryBlock
  }

  /** Triggering is switched on for a channel that exists. */
  predicate TriggerConfigured(o: Scope) {
    o.triggeringEnabled ==> 0 <= o.triggerChannel < o.numChannels
  }

  /** A sequence of pushes, one after the other. */
  function {:induction false} PushAll(o: Scope, bufs: seq<AudioBuffer>): (r: Scope)
    requires Valid(o) && TriggerConfigured(o)
    requires forall k :: 0 <= k < |bufs| ==> WellFormed(bufs[k])
    ensures Valid(r) && SameConfiguration(r, o)
    decreases |bufs|
  {
    if bufs == [] then o
    else
      var next := Push(o, bufs[0]);
      PushAll(next, bufs[1..])
  }

  /** No pushed buffer of `bufs` has a rising edge on the trigger channel. */
  predicate NoEdges(bufs: seq<AudioBuffer>, trigger: nat) {
    forall k :: 0 <= k < |bufs| ==>
      trigger < |bufs[k].channels| && FindTrigger(bufs[k].channels[trigger]).None?
  }

  /**
   * With triggering on, capture waits for a rising edge: while the pushed buffers show
   * none, every frame stays empty, no block is handed on and the write block is untouched.
   */
  lemma {:induction false} CaptureWaitsForEdge(o: Scope, bufs: seq<AudioBuffer>)
    requires Valid(o) && TriggerConfigured(o)
    requires o.triggeringEnabled && !o.foundTriggerInCurrentBlock
    requires o.numSamplesInCurrentBlock == 0 < o.numSamplesExpected
    requires forall k :: 0 <= k < |bufs| ==> WellFormed(bufs[k]) && |bufs[k].channels| == o.numChannels
    requires NoEdges(bufs, o.triggerChannel)
    requires BlockMatches(o)
    ensures var r := PushAll(o, bufs);
            && r.numSamplesInCurrentBlock == 0 && !r.foundTriggerInCurrentBlock
            && r.dc.writeBlock == o.dc.writeBlock && r.dc.readBlock == o.dc.readBlock
            && r.dc.ready == o.dc.ready
    decreases |bufs|
  {
    if bufs != [] {
      var next := Push(o, bufs[0]);
      if CanWrite(o) {
        NoEdgeWritesNothing(o, bufs[0]);
      }
      assert next.dc.writeBlock == o.dc.writeBlock && next.dc.readBlock == o.dc.readBlock;
      assert NoEdges(bufs[1..], o.triggerChannel) by {
        forall k | 0 <= k < |bufs[1..]|
          ensures o.triggerChannel < |bufs[1..][k].channels| && FindTrigger(bufs[1..][k].channels[o.triggerChannel]).None?
        {
          assert bufs[1..][k] == bufs[k + 1];
        }
      }
      assert forall k :: 0 <= k < |bufs[1..]| ==> WellFormed(bufs[1..][k]) && |bufs[1..][k].channels| == o.numChannels by {
        forall k | 0 <= k < |bufs[1..]| ensures WellFormed(bufs[1..][k]) && |bufs[1..][k].channels| == o.numChannels {
          assert bufs[1..][k] == bufs[k + 1];
        }
      }
      CaptureWaitsForEdge(next, bufs[1..]);
    }
  }

  /**
   * `recalculateMemory`: the expected block size follows the channel count and frame length,
   * and channel `i` starts at `i * numSamplesExpected`, so the channel regions are disjoint
   * and each lies inside a block of the expected size.
   */
  function RecalculateMemory(o: Scope): (r: Scope)
    requires ValidProtocol(o)
    ensures Valid(r)
    ensures r.expectedNumBytesForMemoryBlock == o.numChannels * o.numSamplesExpected * BytesPerSample
    ensures r.dc.expectedBlockSize == o.numChannels * o.numSamplesExpected
    ensures |r.channelOffset| == o.numChannels
    ensures forall n, m :: 0 <= n < m < o.numChannels ==>
              r.channelOffset[n] + o.numSamplesExpected <= r.channelOffset[m]
    ensures forall n :: 0 <= n < o.numChannels ==>
              r.channelOffset[n] + o.numSamplesExpected <= r.dc.expectedBlockSize
    ensures r == o.(dc := DC.ResizeMemoryBlock(o.dc, r.dc.expectedBlockSize),
                    expectedNumBytesForMemoryBlock := r.expectedNumBytesForMemoryBlock,
                    channelOffset := r.channelOffset)
  {
    var bytes := o.numChannels * o.numSamplesExpected * BytesPerSample;
    var offsets := OffsetTable(o.numChannels, o.numSamplesExpected);
    OffsetTableDisjoint(offsets, o.numChannels, o.numSamplesExpected);
    o.(expectedNumBytesForMemoryBlock := bytes,
       dc := DC.ResizeMemoryBlock(o.dc, o.numChannels * o.numSamplesExpected),
       channelOffset := offsets)
  }

  /** `setChannels`: the next push must carry the new number of channels. */
  function SetChannels(o: Scope, numChannels: nat, channelNames: seq<string> := []): (r: Scope)
    requires Valid(o)
    ensures Valid(r)
    ensures r.numChannels == numChannels && r.channelNames == channelNames
    ensures r.numSamplesExpected == o.numSamplesExpected
    ensures r.numSamplesInCurrentBlock == o.numSamplesInCurrentBlock && r.holdsWriteBlock == o.holdsWriteBlock
    ensures r.dc.expectedBlockSize == numChannels * o.numSamplesExpected
  {
    RecalculateMemory(o.(numChannels := numChannels, channelNames := channelNames))
  }

  /**
   * `recalculateNumSamples` with `numSamples` standing for `roundToInt (tView / tSample)`:
   * the in-block count restarts at 0 before the memory is recalculated.
   */
  function RecalculateNumSamples(o: Scope, numSamples: nat): (r: Scope)
    requires Valid(o)
    ensures Valid(r)
    ensures r.numSamplesExpected == numSamples && r.numSamplesInCurrentBlock == 0
    ensures r.dc.expectedBlockSize == o.numChannels * numSamples
    ensures r.holdsWriteBlock == o.holdsWriteBlock && r.dc.writeBlock == o.dc.writeBlock
    ensures r.numChannels == o.numChannels && r.tView == o.tView && r.tSample == o.tSample
  {
    RecalculateMemory(o.(numSamplesExpected := numSamples, numSamplesInCurrentBlock := 0))
  }

  function SetTimeViewed(o: Scope, timeViewedInSeconds: real, numSamples: nat): (r: Scope)
    requires Valid(o) && timeViewedInSeconds > 0.0
    ensures Valid(r) && r.tView == timeViewedInSeconds
    ensures r.numSamplesExpected == numSamples && r.numSamplesInCurrentBlock == 0
  {
    RecalculateNumSamples(o.(tView := timeViewedInSeconds), numSamples)
  }

  function SetSampleRate(o: Scope, newSampleRate: real, numSamples: nat): (r: Scope)
    requires Valid(o) && newSampleRate > 0.0
    ensures Valid(r) && r.tSample * newSampleRate == 1.0
    ensures r.numSamplesExpected == numSamples && r.numSamplesInCurrentBlock == 0
  {
    RecalculateNumSamples(o.(tSample := 1.0 / newSampleRate), numSamples)
  }

  /** `enableTriggering`: the channel defaults to 0. */
  function EnableTriggering(o: Scope, isTriggered: bool, channelToUse: int := 0): (r: Scope)
    ensures r == o.(triggeringEnabled := isTriggered, triggerChannel := channelToUse)
    ensures Valid(o) ==> Valid(r)
  {
    o.(triggeringEnabled := isTriggered, triggerChannel := channelToUse)
  }

  /**
   * `applySettingFromTarget`: "timeViewed" with a double sets the time viewed and
   * recalculates the frame length; "isTriggered" with a bool switches triggering and
   * selects channel 0; anything else is ignored.
   */
  function ApplySettingFromTarget(o: Scope, setting: string, value: Var, numSamples: nat): (r: Scope)
    requires Valid(o)
    ensures Valid(r)
    ensures setting == SettingTimeViewed && value.VDouble? ==>
              r.tView == value.d && r.numSamplesExpected == numSamples && r.numSamplesInCurrentBlock == 0
    ensures setting == SettingIsTriggered && value.VBool? ==>
              r == o.(triggeringEnabled := value.b, triggerChannel := 0)
    ensures !(setting == SettingTimeViewed && value.VDouble?) && !(setting == SettingIsTriggered && value.VBool?) ==>
              r == o
  {
    if setting == SettingTimeViewed then
      if value.VDouble? then RecalculateNumSamples(o.(tView := value.d), numSamples) else o
    else if setting == SettingIsTriggered then
      if value.VBool? then EnableTriggering(o, value.b) else o
    else o
  }

  /** The consumer's calls on the collector keep the producer bookkeeping consistent. */
  lemma ReaderKeepsValid(o: Scope)
    requires Valid(o)
    ensures !o.dc.readLocked ==> Valid(o.(dc := DC.StartReading(o.dc).0))
    ensures o.dc.readLocked ==> Valid(o.(dc := DC.FinishedReading(o.dc)))
  {
  }
}
