/**
 * `SpectralDataCollector`: gathers `numSamplesExpected` samples per channel in a complex
 * sample buffer, transforms every full buffer, adds the magnitude spectra of
 * `NumFFTsToAverage` transforms into the write block of its `DataCollector`, scales the
 * sum and hands the block to the sink.
 *
 * The FFT and the magnitude of a complex number are parameters; the FFT only has to keep
 * the length of its input. Whether the processing guard is free when a push arrives is a
 * parameter as well: inside the collector's own calls it always is.
 */
module Spectral {
  import opened Types
  import opened Layout
  import DC = DataCollector

  /** The number of spectra summed into one block. */
  const NumFFTsToAverage: nat := 3

  /** The FFT order `setSampleRate` applies when none has been set. */
  const DefaultFFTOrder: nat := 11

  const SettingFFTOrder: string := "fftOrder"

  type FFT = seq<Complex> -> seq<Complex>
  type Magnitude = Complex -> real

  ghost predicate PreservesLength(fft: FFT) {
    forall x :: |fft(x)| == |x|
  }

  datatype Analyzer = Analyzer(
    dc: DC.Collector,
    fftOrder: nat,
    sampleRate: real,
    startFrequency: real,
    numSamplesExpected: nat,
    numFFTsCalculated: nat,
    numChannels: nat,
    channelNames: seq<string>,
    channelOffset: seq<nat>,
    sampleBuffer: seq<Complex>,
    holdsWriteBlock: bool,                  // currentWriteBlock != nullptr
    expectedNumBytesForMemoryBlock: nat,
    numSamplesInSampleBuffer: nat,
    numSamplesAllChannels: nat)

  ghost predicate Valid(s: Analyzer) {
    && DC.Inv(s.dc)
    && (s.holdsWriteBlock <==> DC.WriterHolds(s.dc))
    && s.numFFTsCalculated < NumFFTsToAverage
    && IsOffsetTable(s.channelOffset, s.numChannels, s.numSamplesExpected)
    && s.numSamplesAllChannels == s.numChannels * s.numSamplesExpected
    && s.expectedNumBytesForMemoryBlock == s.numSamplesAllChannels * BytesPerSample
    && s.dc.expectedBlockSize == s.numSamplesAllChannels
    && |s.sampleBuffer| == s.numSamplesAllChannels
  }

  /** The settings a push and a transform leave alone. */
  predicate SameConfiguration(a: Analyzer, b: Analyzer) {
    && a.fftOrder == b.fftOrder && a.numSamplesExpected == b.numSamplesExpected
    && a.numChannels == b.numChannels && a.channelOffset == b.channelOffset
    && a.numSamplesAllChannels == b.numSamplesAllChannels
    && a.expectedNumBytesForMemoryBlock == b.expectedNumBytesForMemoryBlock
    && a.sampleRate == b.sampleRate && a.startFrequency == b.startFrequency
  }

  /** A new collector with id "SpectralAnalyzer" followed by the extension and no FFT order set. */
  function Create(identifierExtension: string): (s: Analyzer)
    ensures Valid(s)
    ensures |s.dc.id| == |"SpectralAnalyzer"| + |identifierExtension|
    ensures s.dc.id[..|"SpectralAnalyzer"|] == "SpectralAnalyzer" && s.dc.id[|"SpectralAnalyzer"|..] == identifierExtension
    ensures s.fftOrder == 0 && s.numSamplesInSampleBuffer == 0 && s.numFFTsCalculated == 0
    ensures !s.holdsWriteBlock && DC.Idle(s.dc)
  {
    Analyzer(DC.Create("SpectralAnalyzer" + identifierExtension), 0, 0.0, 0.0, 0, 0, 0, [], [], [],
             false, 0, 0, 0)
  }

  function Pow2(n: nat): (r: nat)
    ensures r >= 1
  {
    if n == 0 then 1 else 2 * Pow2(n - 1)
  }

  /** `n` zero-initialised complex slots. */
  function ComplexZeros(n: nat): (r: seq<Complex>)
    ensures |r| == n && forall i :: 0 <= i < n ==> r[i] == Complex(0.0, 0.0)
  {
    seq(n, _ => Complex(0.0, 0.0))
  }

  /**
   * `recalculateMemory`: block size, offsets and both complex buffers follow the channel
   * count and FFT length, the sample buffer is zeroed, and the sample cursor is left as
   * it was.
   */
  function RecalculateMemory(s: Analyzer): (r: Analyzer)
    requires DC.Inv(s.dc) && (s.holdsWriteBlock <==> DC.WriterHolds(s.dc))
    requires s.numFFTsCalculated < NumFFTsToAverage
    ensures Valid(r)
    ensures r.dc.expectedBlockSize == s.numChannels * s.numSamplesExpected
    ensures r.sampleBuffer == ComplexZeros(s.numChannels * s.numSamplesExpected)
    ensures |r.channelOffset| == s.numChannels
    ensures forall n, m :: 0 <= n < m < s.numChannels ==>
              r.channelOffset[n] + s.numSamplesExpected <= r.channelOffset[m]
    ensures r.numSamplesInSampleBuffer == s.numSamplesInSampleBuffer
    ensures r.numFFTsCalculated == s.numFFTsCalculated && r.holdsWriteBlock == s.holdsWriteBlock
    ensures r.dc == DC.ResizeMemoryBlock(s.dc, r.dc.expectedBlockSize)
    ensures r.numChannels == s.numChannels && r.numSamplesExpected == s.numSamplesExpected
    ensures r.fftOrder == s.fftOrder
  {
    var all := s.numChannels * s.numSamplesExpected;
    var offsets := OffsetTable(s.numChannels, s.numSamplesExpected);
    OffsetTableDisjoint(offsets, s.numChannels, s.numSamplesExpected);
    s.(numSamplesAllChannels := all,
       expectedNumBytesForMemoryBlock := all * BytesPerSample,
       dc := DC.ResizeMemoryBlock(s.dc, all),
       sampleBuffer := ComplexZeros(all),
       channelOffset := offsets)
  }

  /** `setFFTOrder`: the FFT length becomes `2^order`; the sample cursor is not reset. */
  function SetFFTOrder(s: Analyzer, newFFTOrder: nat): (r: Analyzer)
    requires Valid(s)
    ensures Valid(r)
    ensures r.fftOrder == newFFTOrder && r.numSamplesExpected == Pow2(newFFTOrder)
    ensures r.numSamplesInSampleBuffer == s.numSamplesInSampleBuffer
    ensures r.dc.expectedBlockSize == s.numChannels * Pow2(newFFTOrder)
    ensures r.numChannels == s.numChannels && r.sampleRate == s.sampleRate
  {
    RecalculateMemory(s.(fftOrder := newFFTOrder, numSamplesExpected := Pow2(newFFTOrder)))
  }

  /**
   * `setSampleRate`: applies the default FFT order while the order is 0, then records the
   * rate and start frequency.
   */
  function SetSampleRate(s: Analyzer, newSampleRate: real, newStartFrequency: real := 0.0): (r: Analyzer)
    requires Valid(s)
    ensures Valid(r)
    ensures r.sampleRate == newSampleRate && r.startFrequency == newStartFrequency
    ensures s.fftOrder == 0 ==> r.fftOrder == DefaultFFTOrder && r.numSamplesExpected == 2048
    ensures s.fftOrder != 0 ==> r == s.(sampleRate := newSampleRate, startFrequency := newStartFrequency)
  {
    var ordered := if s.fftOrder == 0 then SetFFTOrder(s, DefaultFFTOrder) else s;
    ordered.(sampleRate := newSampleRate, startFrequency := newStartFrequency)
  }

  function SetChannels(s: Analyzer, numChannels: nat, channelNames: seq<string>): (r: Analyzer)
    requires Valid(s)
    ensures Valid(r)
    ensures r.numChannels == numChannels && r.channelNames == channelNames
    ensures r.numSamplesExpected == s.numSamplesExpected && r.fftOrder == s.fftOrder
    ensures r.dc.expectedBlockSize == numChannels * s.numSamplesExpected
  {
    RecalculateMemory(s.(numChannels := numChannels, channelNames := channelNames))
  }

  /**
   * `applySettingFromTarget`: only "fftOrder" with an integer value has an effect. A
   * negative order leaves `1 << fftOrder` undefined, and the call then has no defined
   * result (`None`).
   */
  function ApplySettingFromTarget(s: Analyzer, setting: string, value: Var): (r: Option<Analyzer>)
    requires Valid(s)
    ensures r.None? <==> setting == SettingFFTOrder && value.VInt? && value.i < 0
    ensures r.Some? ==> Valid(r.value)
    ensures setting == SettingFFTOrder && value.VInt? && value.i >= 0 ==> r == Some(SetFFTOrder(s, value.i))
    ensures !(setting == SettingFFTOrder && value.VInt?) ==> r == Some(s)
  {
    if setting == SettingFFTOrder && value.VInt? then
      if value.i < 0 then None else Some(SetFFTOrder(s, value.i))
    else Some(s)
  }

  /** A real sample as the complex value `(x, 0)`. */
  function AsComplex(x: seq<real>): (r: seq<Complex>)
    ensures |r| == |x| && forall k :: 0 <= k < |x| ==> r[k] == Complex(x[k], 0.0)
  {
    seq(|x|, k requires 0 <= k < |x| => Complex(x[k], 0.0))
  }

  function ComplexChannels(buf: AudioBuffer): (r: seq<seq<Complex>>)
    ensures |r| == |buf.channels|
    ensures forall ch :: 0 <= ch < |buf.channels| ==> r[ch] == AsComplex(buf.channels[ch])
  {
    seq(|buf.channels|, ch requires 0 <= ch < |buf.channels| => AsComplex(buf.channels[ch]))
  }

  /**
   * The copying half of a push: `count` samples of every channel, as complex values, go to
   * position `numSamplesInSampleBuffer` of the channel's region, and the cursor advances.
   */
  function Store(s: Analyzer, buf: AudioBuffer, count: nat): (r: Analyzer)
    requires Valid(s) && WellFormed(buf) && |buf.channels| == s.numChannels
    requires count <= buf.numSamples && s.numSamplesInSampleBuffer + count <= s.numSamplesExpected
    ensures Valid(r) && SameConfiguration(r, s)
    ensures r.numSamplesInSampleBuffer == s.numSamplesInSampleBuffer + count
    ensures forall ch: nat :: ch < s.numChannels ==>
              var at := s.numSamplesInSampleBuffer;
              HasChannel(s.sampleBuffer, s.numSamplesExpected, ch) &&
              Chan(r.sampleBuffer, s.numSamplesExpected, ch)
                == Chan(s.sampleBuffer, s.numSamplesExpected, ch)[..at] + AsComplex(buf.channels[ch])[..count]
                   + Chan(s.sampleBuffer, s.numSamplesExpected, ch)[at + count..]
    ensures r == s.(sampleBuffer := r.sampleBuffer, numSamplesInSampleBuffer := r.numSamplesInSampleBuffer)
  {
    var src := ComplexChannels(buf);
    var at := s.numSamplesInSampleBuffer;
    var copied := CopyIntoChannels(s.sampleBuffer, s.numSamplesExpected, s.numChannels, at, src, 0, count);
    assert forall ch :: 0 <= ch < s.numChannels ==> src[ch][0 .. count] == AsComplex(buf.channels[ch])[..count];
    s.(sampleBuffer := copied, numSamplesInSampleBuffer := at + count)
  }

  /**
   * One FFT per channel over the raw sample buffer: no window is applied before the
   * transform.
   */
  function {:induction false} Spectrum(samples: seq<Complex>, stride: nat, numChannels: nat, fft: FFT): (r: seq<Complex>)
    requires numChannels * stride <= |samples|
    requires PreservesLength(fft)
    ensures |r| == numChannels * stride
    ensures forall ch: nat :: ch < numChannels ==>
              HasChannel(samples, stride, ch) && HasChannel(r, stride, ch) &&
              Chan(r, stride, ch) == fft(Chan(samples, stride, ch))
    decreases numChannels
  {
    if numChannels == 0 then []
    else
      var last := numChannels - 1;
      MulMono(last, numChannels, stride);
      var prev := Spectrum(samples, stride, last, fft);
      ChannelInBounds(last, numChannels, stride);
      var tail := fft(Chan(samples, stride, last));
      AppendChannel(prev, tail, stride, last);
      AllChannelsInBounds(samples, stride, numChannels);
      prev + tail
  }

  function Magnitudes(spectrum: seq<Complex>, mag: Magnitude): (r: seq<real>)
    ensures |r| == |spectrum| && forall i :: 0 <= i < |r| ==> r[i] == mag(spectrum[i])
  {
    seq(|spectrum|, i requires 0 <= i < |spectrum| => mag(spectrum[i]))
  }

  /** The magnitude spectrum the current sample buffer contributes to the block. */
  function Frame(s: Analyzer, fft: FFT, mag: Magnitude): (r: seq<real>)
    requires Valid(s) && PreservesLength(fft)
    ensures |r| == s.numSamplesAllChannels
  {
    Magnitudes(Spectrum(s.sampleBuffer, s.numSamplesExpected, s.numChannels, fft), mag)
  }

  function Add(a: seq<real>, b: seq<real>): (r: seq<real>)
    requires |a| == |b|
    ensures |r| == |a| && forall i :: 0 <= i < |a| ==> r[i] == a[i] + b[i]
  {
    seq(|a|, i requires 0 <= i < |a| => a[i] + b[i])
  }

  function Scale(a: seq<real>, k: real): (r: seq<real>)
    ensures |r| == |a| && forall i :: 0 <= i < |a| ==> r[i] == a[i] * k
  {
    seq(|a|, i requires 0 <= i < |a| => a[i] * k)
  }

  /**
   * `2 / (numSamplesExpected * NumFFTsToAverage)`. With no samples expected the matching
   * block is empty and the factor scales nothing.
   */
  function AverageScale(numSamplesExpected: nat): (k: real)
    ensures numSamplesExpected > 0 ==> k * (numSamplesExpected * NumFFTsToAverage) as real == 2.0
  {
    if numSamplesExpected == 0 then 0.0 else 2.0 / (numSamplesExpected * NumFFTsToAverage) as real
  }

  /** The write block `processFFT` accumulates into, after obtaining and clearing a new one if needed. */
  function AccumulationBase(s: Analyzer): seq<real> {
    if s.holdsWriteBlock then s.dc.writeBlock else Zeros(|s.dc.writeBlock|)
  }

  predicate CanWrite(s: Analyzer) {
    s.holdsWriteBlock || !s.dc.writeLocked
  }

  predicate BlockMatches(s: Analyzer) {
    BytesPerSample * |s.dc.writeBlock| == s.expectedNumBytesForMemoryBlock
  }

  /**
   * Obtains a write block when none is held and clears it, as the start of an averaging
   * cycle does; a refused request changes nothing.
   */
  function AcquireCleared(s: Analyzer): (r: Analyzer)
    requires Valid(s)
    ensures Valid(r) && SameConfiguration(r, s) && r.sampleBuffer == s.sampleBuffer
    ensures r.holdsWriteBlock <==> CanWrite(s)
    ensures r.holdsWriteBlock ==> r.dc.writeBlock == AccumulationBase(s)
    ensures !CanWrite(s) || s.holdsWriteBlock ==> r == s
    ensures r.numFFTsCalculated == s.numFFTsCalculated
    ensures r.numSamplesInSampleBuffer == s.numSamplesInSampleBuffer
    ensures r.dc.ready == s.dc.ready && r.dc.readBlock == s.dc.readBlock
  {
    if s.holdsWriteBlock then s
    else
      var started := DC.StartWriting(s.dc);
      if !started.1 then s
      else
        var dc := DC.WriteBlock(started.0, Zeros(|s.dc.writeBlock|));
        s.(dc := dc, holdsWriteBlock := true)
  }

  /**
   * Adds one frame to the held block of the expected size. The third frame scales the sum
   * by `2 / (numSamplesExpected * NumFFTsToAverage)`, hands the block on and restarts the
   * count.
   */
  function AddFrame(s: Analyzer, frame: seq<real>): (r: Analyzer)
    requires Valid(s) && s.holdsWriteBlock && BlockMatches(s) && |frame| == s.numSamplesAllChannels
    ensures Valid(r) && SameConfiguration(r, s) && r.sampleBuffer == s.sampleBuffer
    ensures r.numSamplesInSampleBuffer == s.numSamplesInSampleBuffer
    ensures s.numFFTsCalculated + 1 < NumFFTsToAverage ==>
              && r.holdsWriteBlock && r.numFFTsCalculated == s.numFFTsCalculated + 1
              && r.dc == s.dc.(writeBlock := Add(s.dc.writeBlock, frame))
    ensures s.numFFTsCalculated + 1 == NumFFTsToAverage ==>
              && !r.holdsWriteBlock && r.numFFTsCalculated == 0
              && DC.NewestBlock(r.dc) == Scale(Add(s.dc.writeBlock, frame), AverageScale(s.numSamplesExpected))
              && (!s.dc.readLocked ==> r.dc.ready == s.dc.ready + [s.dc.sinkIdx])
              && (s.dc.readLocked ==> r.dc.ready == s.dc.ready)
  {
    var summed := Add(s.dc.writeBlock, frame);
    if s.numFFTsCalculated + 1 == NumFFTsToAverage then
      var scaled := Scale(summed, AverageScale(s.numSamplesExpected));
      s.(dc := DC.FinishedWriting(DC.WriteBlock(s.dc, scaled)), holdsWriteBlock := false, numFFTsCalculated := 0)
    else
      s.(dc := DC.WriteBlock(s.dc, summed), numFFTsCalculated := s.numFFTsCalculated + 1)
  }

  /**
   * `processFFT`. Transforms the sample buffer and, when a write block is available, adds
   * the magnitudes into it; a held block of the wrong size is handed on unchanged and
   * unscaled, and the averaging count is then kept. The sample cursor always restarts.
   */
  function ProcessFFT(s: Analyzer, fft: FFT, mag: Magnitude): (r: Analyzer)
    requires Valid(s) && PreservesLength(fft)
    ensures Valid(r) && SameConfiguration(r, s) && r.sampleBuffer == s.sampleBuffer
    ensures r.numSamplesInSampleBuffer == 0
    ensures !CanWrite(s) ==> r == s.(numSamplesInSampleBuffer := 0)
    ensures CanWrite(s) && BlockMatches(s) ==>
              r == AddFrame(AcquireCleared(s), Frame(s, fft, mag)).(numSamplesInSampleBuffer := 0)
    ensures CanWrite(s) && !BlockMatches(s) ==>
              && !r.holdsWriteBlock && r.numFFTsCalculated == s.numFFTsCalculated
              && DC.NewestBlock(r.dc) == AccumulationBase(s)
  {
    var frame := Frame(s, fft, mag);
    var a := AcquireCleared(s);
    var done :=
      if !a.holdsWriteBlock then a
      else if BlockMatches(a) then AddFrame(a, frame)
      else a.(dc := DC.FinishedWriting(a.dc), holdsWriteBlock := false);
    done.(numSamplesInSampleBuffer := 0)
  }

  /** The number of samples a push copies per channel; negative when the cursor lies beyond the FFT length. */
  function CopyCount(s: Analyzer, buf: AudioBuffer): int {
    Min(buf.numSamples, s.numSamplesExpected - s.numSamplesInSampleBuffer)
  }

  /**
   * `pushChannelsSamples`. A buffer with the wrong channel count is ignored, and so is a
   * push that finds the processing guard taken. Otherwise up to the missing number of
   * samples is stored, the cursor advances and a full sample buffer is transformed. A
   * cursor beyond the FFT length (left by a shorter new order) makes the count negative:
   * nothing is copied and the cursor drops to the FFT length, which transforms the buffer.
   */
  function Push(s: Analyzer, buf: AudioBuffer, guardAvailable: bool, fft: FFT, mag: Magnitude): (r: Analyzer)
    requires Valid(s) && WellFormed(buf) && PreservesLength(fft)
    ensures Valid(r) && SameConfiguration(r, s)
    ensures |buf.channels| != s.numChannels || !guardAvailable ==> r == s
    ensures |buf.channels| == s.numChannels && guardAvailable ==>
              var count := CopyCount(s, buf);
              var cursor := s.numSamplesInSampleBuffer + count;
              && cursor == Min(s.numSamplesInSampleBuffer + buf.numSamples, s.numSamplesExpected)
              && (cursor < s.numSamplesExpected ==>
                    r == Store(s, buf, cursor - s.numSamplesInSampleBuffer) && r.numSamplesInSampleBuffer == cursor)
              && (cursor >= s.numSamplesExpected && count >= 0 ==> r == ProcessFFT(Store(s, buf, count), fft, mag))
              && (count < 0 ==>
                    r == ProcessFFT(s.(numSamplesInSampleBuffer := s.numSamplesExpected), fft, mag))
              && (cursor >= s.numSamplesExpected ==> r.numSamplesInSampleBuffer == 0)
  {
    if |buf.channels| != s.numChannels || !guardAvailable then s
    else
      var count := CopyCount(s, buf);
      var stored := if count >= 0 then Store(s, buf, count)
                    else s.(numSamplesInSampleBuffer := s.numSamplesInSampleBuffer + count);
      if stored.numSamplesInSampleBuffer >= s.numSamplesExpected then ProcessFFT(stored, fft, mag) else stored
  }

  /**
   * Averaging: from the start of a cycle, three transforms with an obtainable block of the
   * expected size hand on a block whose every slot is the sum of the three magnitude
   * frames times `2 / (numSamplesExpected * NumFFTsToAverage)`. Between the transforms the
   * sample buffer may hold anything (the pushes refill it); `r1`, `r2` and `r3` are the
   * states after each transform and `f1`, `f2` and `f3` the frames they compute.
   */
  lemma ThreeFramesAverage(s: Analyzer, b1: seq<Complex>, b2: seq<Complex>, b3: seq<Complex>, fft: FFT, mag: Magnitude,
                           r1: Analyzer, r2: Analyzer, r3: Analyzer, f1: seq<real>, f2: seq<real>, f3: seq<real>)
    requires Valid(s) && PreservesLength(fft)
    requires !s.holdsWriteBlock && !s.dc.writeLocked && s.numFFTsCalculated == 0 && BlockMatches(s)
    requires |b1| == |b2| == |b3| == s.numSamplesAllChannels
    requires f1 == Frame(s.(sampleBuffer := b1), fft, mag)
    requires f2 == Frame(s.(sampleBuffer := b2), fft, mag)
    requires f3 == Frame(s.(sampleBuffer := b3), fft, mag)
    requires r1 == ProcessFFT(s.(sampleBuffer := b1), fft, mag)
    requires r2 == ProcessFFT(r1.(sampleBuffer := b2), fft, mag)
    requires r3 == ProcessFFT(r2.(sampleBuffer := b3), fft, mag)
    ensures r1.holdsWriteBlock && r2.holdsWriteBlock
    ensures !r3.holdsWriteBlock && r3.numFFTsCalculated == 0
    ensures |DC.NewestBlock(r3.dc)| == s.numSamplesAllChannels
    ensures forall n :: 0 <= n < s.numSamplesAllChannels ==>
              DC.NewestBlock(r3.dc)[n] == (f1[n] + f2[n] + f3[n]) * AverageScale(s.numSamplesExpected)
  {
    FirstTwoFrames(s, b1, b2, fft, mag, r1, r2);
    assert Frame(r2.(sampleBuffer := b3), fft, mag) == f3;
    ClosingFrame(r2, b3, fft, mag, r3, f1, f2, f3);
  }

  /**
   * The third transform of a cycle, on a held block holding `f1 + f2`, adds its frame `f3`,
   * scales the sum and hands the block on.
   */
  lemma ClosingFrame(r2: Analyzer, b3: seq<Complex>, fft: FFT, mag: Magnitude, r3: Analyzer,
                     f1: seq<real>, f2: seq<real>, f3: seq<real>)
    requires Valid(r2) && PreservesLength(fft)
    requires r2.holdsWriteBlock && r2.numFFTsCalculated + 1 == NumFFTsToAverage && BlockMatches(r2)
    requires |b3| == |f1| == |f2| == |r2.dc.writeBlock| == r2.numSamplesAllChannels
    requires forall n :: 0 <= n < |f1| ==> r2.dc.writeBlock[n] == f1[n] + f2[n]
    requires r3 == ProcessFFT(r2.(sampleBuffer := b3), fft, mag)
    requires f3 == Frame(r2.(sampleBuffer := b3), fft, mag)
    ensures !r3.holdsWriteBlock && r3.numFFTsCalculated == 0
    ensures |DC.NewestBlock(r3.dc)| == |f1|
    ensures forall n :: 0 <= n < |f1| ==>
              DC.NewestBlock(r3.dc)[n] == (f1[n] + f2[n] + f3[n]) * AverageScale(r2.numSamplesExpected)
  {
    AccumulatingFrame(r2.(sampleBuffer := b3), fft, mag);
    ScaledSum(DC.NewestBlock(r3.dc), r2.dc.writeBlock, f1, f2, f3, AverageScale(r2.numSamplesExpected));
  }

  lemma ScaledSum(out: seq<real>, acc: seq<real>, f1: seq<real>, f2: seq<real>, f3: seq<real>, k: real)
    requires |acc| == |f1| == |f2| == |f3|
    requires forall n :: 0 <= n < |acc| ==> acc[n] == f1[n] + f2[n]
    requires out == Scale(Add(acc, f3), k)
    ensures |out| == |acc| && forall n :: 0 <= n < |acc| ==> out[n] == (f1[n] + f2[n] + f3[n]) * k
  {
    forall n | 0 <= n < |acc| ensures out[n] == (f1[n] + f2[n] + f3[n]) * k {
      assert Add(acc, f3)[n] == f1[n] + f2[n] + f3[n];
    }
  }

  /** The first two transforms of a cycle leave the sum of their frames in the held block. */
  lemma FirstTwoFrames(s: Analyzer, b1: seq<Complex>, b2: seq<Complex>, fft: FFT, mag: Magnitude,
                       r1: Analyzer, r2: Analyzer)
    requires Valid(s) && PreservesLength(fft)
    requires !s.holdsWriteBlock && !s.dc.writeLocked && s.numFFTsCalculated == 0 && BlockMatches(s)
    requires |b1| == |b2| == s.numSamplesAllChannels
    requires r1 == ProcessFFT(s.(sampleBuffer := b1), fft, mag)
    requires r2 == ProcessFFT(r1.(sampleBuffer := b2), fft, mag)
    ensures var f1 := Frame(s.(sampleBuffer := b1), fft, mag);
            var f2 := Frame(s.(sampleBuffer := b2), fft, mag);
            && r1.holdsWriteBlock && r2.holdsWriteBlock && r2.numFFTsCalculated == 2 && BlockMatches(r2)
            && Valid(r2) && SameConfiguration(r2, s)
            && |r2.dc.writeBlock| == s.numSamplesAllChannels
            && forall n :: 0 <= n < s.numSamplesAllChannels ==> r2.dc.writeBlock[n] == f1[n] + f2[n]
  {
    var s1 := s.(sampleBuffer := b1);
    var f1 := Frame(s1, fft, mag);
    OpeningFrame(s1, fft, mag);
    var s2 := r1.(sampleBuffer := b2);
    var f2 := Frame(s.(sampleBuffer := b2), fft, mag);
    assert Frame(s2, fft, mag) == f2;
    AccumulatingFrame(s2, fft, mag);
    forall n | 0 <= n < s.numSamplesAllChannels ensures r2.dc.writeBlock[n] == f1[n] + f2[n] {
      assert r1.dc.writeBlock[n] == 0.0 + f1[n];
    }
  }

  /** The first transform of a cycle obtains a cleared block and stores its frame in it. */
  lemma OpeningFrame(s: Analyzer, fft: FFT, mag: Magnitude)
    requires Valid(s) && PreservesLength(fft)
    requires !s.holdsWriteBlock && !s.dc.writeLocked && s.numFFTsCalculated == 0 && BlockMatches(s)
    ensures var r := ProcessFFT(s, fft, mag);
            && r.holdsWriteBlock && r.numFFTsCalculated == 1 && BlockMatches(r)
            && r.dc.writeBlock == Add(Zeros(|s.dc.writeBlock|), Frame(s, fft, mag))
  {
    var a := AcquireCleared(s);
    assert a.holdsWriteBlock && a.dc.writeBlock == Zeros(|s.dc.writeBlock|) && BlockMatches(a);
  }

  /**
   * A later transform of a cycle adds its frame to the held block; the one that completes
   * the cycle scales the sum and hands the block on.
   */
  lemma AccumulatingFrame(s: Analyzer, fft: FFT, mag: Magnitude)
    requires Valid(s) && PreservesLength(fft)
    requires s.holdsWriteBlock && s.numFFTsCalculated > 0 && BlockMatches(s)
    ensures var r := ProcessFFT(s, fft, mag);
            && (s.numFFTsCalculated + 1 < NumFFTsToAverage ==>
                  && r.holdsWriteBlock && r.numFFTsCalculated == s.numFFTsCalculated + 1 && BlockMatches(r)
                  && r.dc.writeBlock == Add(s.dc.writeBlock, Frame(s, fft, mag)))
            && (s.numFFTsCalculated + 1 == NumFFTsToAverage ==>
                  && !r.holdsWriteBlock && r.numFFTsCalculated == 0
                  && DC.NewestBlock(r.dc) == Scale(Add(s.dc.writeBlock, Frame(s, fft, mag)), AverageScale(s.numSamplesExpected)))
  {
  }

  /**
   * Three transforms of the same samples from the start of a cycle hand on that frame times
   * `2 / numSamplesExpected`: the average of the three magnitudes, scaled to one-sided
   * amplitude.
   */
  lemma IdenticalFramesAverageToFrame(s: Analyzer, b: seq<Complex>, fft: FFT, mag: Magnitude,
                                      r1: Analyzer, r2: Analyzer, r3: Analyzer)
    requires Valid(s) && PreservesLength(fft)
    requires !s.holdsWriteBlock && !s.dc.writeLocked && s.numFFTsCalculated == 0 && BlockMatches(s)
    requires |b| == s.numSamplesAllChannels
    requires r1 == ProcessFFT(s.(sampleBuffer := b), fft, mag)
    requires r2 == ProcessFFT(r1.(sampleBuffer := b), fft, mag)
    requires r3 == ProcessFFT(r2.(sampleBuffer := b), fft, mag)
    ensures !r3.holdsWriteBlock && |DC.NewestBlock(r3.dc)| == s.numSamplesAllChannels
    ensures var f := Frame(s.(sampleBuffer := b), fft, mag);
            forall n :: 0 <= n < s.numSamplesAllChannels ==>
              DC.NewestBlock(r3.dc)[n] == f[n] * (2.0 / s.numSamplesExpected as real)
  {
    var f := Frame(s.(sampleBuffer := b), fft, mag);
    ThreeFramesAverage(s, b, b, b, fft, mag, r1, r2, r3, f, f, f);
    var e := s.numSamplesExpected;
    forall n | 0 <= n < s.numSamplesAllChannels
      ensures DC.NewestBlock(r3.dc)[n] == f[n] * (2.0 / e as real)
    {
      assert e > 0;
      TripledAverage(f[n], e);
    }
  }

  lemma TripledAverage(x: real, e: nat)
    requires e > 0
    ensures (x + x + x) * AverageScale(e) == x * (2.0 / e as real)
  {
    var k := AverageScale(e);
    assert k * (e * 3) as real == 2.0;
    assert (e * 3) as real == 3.0 * e as real;
    assert 3.0 * k == 2.0 / e as real;
  }
}
